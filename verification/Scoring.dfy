// scoring/scoring.go: points relative to a reference machine. Real arithmetic throughout.
module Scoring {
  import opened Options

  // The fields of results.RawResult that scoring reads.
  datatype Measured = Measured(name: string, opsPerSec: real, p99Ns: int)

  datatype Category = Integer | Memory | Throughput | Latency

  datatype Weights = Weights(integer: real, memory: real, throughput: real, latency: real)

  datatype ModeScore = ModeScore(
    integer: real,
    memory: real,
    throughput: real,
    latency: real,
    total: real,
    rating: string)

  datatype Outcome = Outcome(singleThread: ModeScore, multiThread: ModeScore, weights: Weights, profile: string)

  datatype Reference = Reference(opsST: real, opsMT: real, p99ST: int, p99MT: int)

  /** A missing entry of the Go map reads as zeros. */
  function ReferenceFor(name: string): Reference {
    if name == "primes" then Reference(82.09, 85.97, 13_400_000, 177_496_500)
    else if name == "sorting" then Reference(237.85, 2099.50, 4_565_875, 9_854_042)
    else if name == "matrix_int" then Reference(103.84, 931.61, 10_132_708, 20_951_625)
    else if name == "matrix_float" then Reference(139.67, 1129.75, 7_535_500, 18_790_000)
    else if name == "hashing" then Reference(2712.85, 25294.70, 413_584, 1_253_125)
    else if name == "json" then Reference(279.48, 2184.63, 5_312_125, 11_374_208)
    else if name == "php_like" then Reference(166.46, 712.79, 7_258_334, 19_927_958)
    else if name == "apache_like" then Reference(1071.54, 5903.20, 1_174_542, 3_370_917)
    else Reference(0.0, 0.0, 0, 0)
  }

  function RefOps(name: string, mt: bool): real {
    if mt then ReferenceFor(name).opsMT else ReferenceFor(name).opsST
  }

  function RefLat(name: string, mt: bool): int {
    if mt then ReferenceFor(name).p99MT else ReferenceFor(name).p99ST
  }

  function BenchmarksFor(c: Category): seq<string> {
    match c
    case Integer => ["primes", "sorting"]
    case Memory => ["matrix_int", "matrix_float", "hashing", "php_like", "apache_like"]
    case Throughput => ["hashing", "json", "php_like", "apache_like"]
    case Latency => ["primes", "sorting", "matrix_int", "matrix_float", "hashing", "json", "php_like", "apache_like"]
  }

  /** Latency is fed by every benchmark. */
  lemma LatencyHasAll(c: Category, name: string)
    requires name in BenchmarksFor(c)
    ensures name in BenchmarksFor(Latency)
  {
  }

  lemma ReferencesArePositive(name: string, mt: bool)
    requires name in BenchmarksFor(Latency)
    ensures RefOps(name, mt) > 0.0 && RefLat(name, mt) > 0
  {
  }

  function WeightsFor(profile: string): Option<Weights> {
    if profile == "default" || profile == "" then Some(Weights(0.30, 0.30, 0.25, 0.15))
    else if profile == "database" then Some(Weights(0.20, 0.20, 0.35, 0.25))
    else if profile == "batch" then Some(Weights(0.40, 0.20, 0.30, 0.10))
    else None
  }

  predicate Balanced(w: Weights) {
    && w.integer > 0.0 && w.memory > 0.0 && w.throughput > 0.0 && w.latency > 0.0
    && w.integer + w.memory + w.throughput + w.latency == 1.0
  }

  function Normalize(measured: real, reference: real): real {
    if reference <= 0.0 then 0.0 else measured / reference * 1000.0
  }

  function NormalizeLatency(measuredNs: int, referenceNs: int): real {
    if measuredNs <= 0 || referenceNs <= 0 then 0.0 else referenceNs as real / measuredNs as real * 1000.0
  }

  function Label(total: real): string {
    if total < 500.0 then "Embedded / Low-Power"
    else if total < 900.0 then "Entry Level"
    else if total < 1100.0 then "Referenz"
    else if total < 2000.0 then "Performance"
    else if total < 4000.0 then "High Performance"
    else "Workstation / Server"
  }

  function Sum(xs: seq<real>): real {
    if xs == [] then 0.0 else Sum(xs[..|xs| - 1]) + xs[|xs| - 1]
  }

  function MeanOf(xs: seq<real>): real {
    if xs == [] then 0.0 else Sum(xs) / |xs| as real
  }

  method Mean(xs: seq<real>) returns (r: real)
    ensures r == MeanOf(xs)
  {
    if |xs| == 0 {
      return 0.0;
    }
    var s := 0.0;
    for i := 0 to |xs|
      invariant s == Sum(xs[..i])
    {
      assert xs[..i + 1][..i] == xs[..i];
      s := s + xs[i];
    }
    assert xs[..|xs|] == xs;
    return s / |xs| as real;
  }

  /** The points that a result earns in a category. */
  function Points(c: Category, name: string, r: Measured, mt: bool): real {
    if c == Latency then NormalizeLatency(r.p99Ns, RefLat(name, mt)) else Normalize(r.opsPerSec, RefOps(name, mt))
  }

  /** The points of the benchmarks that have a result. */
  function Scores(c: Category, names: seq<string>, byName: map<string, Measured>, mt: bool): seq<real> {
    if names == [] then []
    else
      var name := names[|names| - 1];
      Scores(c, names[..|names| - 1], byName, mt) + if name in byName then [Points(c, name, byName[name], mt)] else []
  }

  function CategoryScore(c: Category, byName: map<string, Measured>, mt: bool): real {
    MeanOf(Scores(c, BenchmarksFor(c), byName, mt))
  }

  function Share(points: real, weight: real): real {
    points * weight
  }

  function Weighted(w: Weights, score: Category -> real): real {
    Share(score(Integer), w.integer) + Share(score(Memory), w.memory)
    + Share(score(Throughput), w.throughput) + Share(score(Latency), w.latency)
  }

  function TotalScore(byName: map<string, Measured>, mt: bool, w: Weights): real {
    Weighted(w, c => CategoryScore(c, byName, mt))
  }

  function ModeOf(byName: map<string, Measured>, mt: bool, w: Weights): ModeScore {
    var total := TotalScore(byName, mt, w);
    ModeScore(CategoryScore(Integer, byName, mt), CategoryScore(Memory, byName, mt),
              CategoryScore(Throughput, byName, mt), CategoryScore(Latency, byName, mt), total, Label(total))
  }

  lemma ModeWrittenOut(byName: map<string, Measured>, mt: bool, w: Weights)
    ensures var m := ModeOf(byName, mt, w);
            && m.integer == CategoryScore(Integer, byName, mt) && m.memory == CategoryScore(Memory, byName, mt)
            && m.throughput == CategoryScore(Throughput, byName, mt) && m.latency == CategoryScore(Latency, byName, mt)
            && m.total == m.integer * w.integer + m.memory * w.memory + m.throughput * w.throughput
                          + m.latency * w.latency
            && m.rating == Label(m.total)
  {
    hide CategoryScore, Label;
  }

  /** The last result of a name wins. */
  function ByName(rs: seq<Option<Measured>>): map<string, Measured> {
    if rs == [] then map[]
    else
      var byName, last := ByName(rs[..|rs| - 1]), rs[|rs| - 1];
      if last.Some? then byName[last.value.name := last.value] else byName
  }

  method Collect(c: Category, names: seq<string>, byName: map<string, Measured>, mt: bool) returns (out: seq<real>)
    ensures out == Scores(c, names, byName, mt)
  {
    out := [];
    for i := 0 to |names|
      invariant out == Scores(c, names[..i], byName, mt)
    {
      assert names[..i + 1][..i] == names[..i];
      if names[i] in byName {
        out := out + [Points(c, names[i], byName[names[i]], mt)];
      }
    }
    assert names[..|names|] == names;
  }

  method MeanPoints(c: Category, byName: map<string, Measured>, mt: bool) returns (r: real)
    ensures r == CategoryScore(c, byName, mt)
  {
    hide BenchmarksFor, MeanOf, Points, Scores;
    var points := Collect(c, BenchmarksFor(c), byName, mt);
    r := Mean(points);
  }

  method ComputeMode(rs: seq<Option<Measured>>, mt: bool, w: Weights) returns (m: ModeScore)
    ensures m == ModeOf(ByName(rs), mt, w)
  {
    hide CategoryScore, ModeOf, Label;
    var byName: map<string, Measured> := map[];
    for i := 0 to |rs|
      invariant byName == ByName(rs[..i])
    {
      assert rs[..i + 1][..i] == rs[..i];
      if rs[i].Some? {
        byName := byName[rs[i].value.name := rs[i].value];
      }
    }
    assert rs[..|rs|] == rs;
    var integer := MeanPoints(Integer, byName, mt);
    var memory := MeanPoints(Memory, byName, mt);
    var throughput := MeanPoints(Throughput, byName, mt);
    var latency := MeanPoints(Latency, byName, mt);
    var total := integer * w.integer + memory * w.memory + throughput * w.throughput + latency * w.latency;
    ModeWrittenOut(byName, mt, w);
    m := ModeScore(integer, memory, throughput, latency, total, Label(total));
  }

  // Means and weighted totals.

  lemma OneMore(x: real, n: real)
    ensures x * (n + 1.0) == x * n + x
  {
  }

  /** A category's mean lies between any bounds on the points of its results. */
  lemma {:induction false} SumBetween(xs: seq<real>, low: real, high: real)
    requires forall i :: 0 <= i < |xs| ==> low <= xs[i] <= high
    ensures low * |xs| as real <= Sum(xs) <= high * |xs| as real
  {
    if xs != [] {
      var n := |xs| - 1;
      SumBetween(xs[..n], low, high);
      assert (n + 1) as real == n as real + 1.0;
      OneMore(low, n as real);
      OneMore(high, n as real);
    }
  }

  lemma DivideBounds(sum: real, n: real, low: real, high: real)
    requires n > 0.0 && low * n <= sum <= high * n
    ensures low <= sum / n <= high
  {
  }

  lemma Scale(x: real, y: real, n: real)
    requires x <= y && n > 0.0
    ensures x * n <= y * n
  {
  }

  lemma MeanBetween(xs: seq<real>, low: real, high: real)
    requires xs != [] && forall i :: 0 <= i < |xs| ==> low <= xs[i] <= high
    ensures low <= MeanOf(xs) <= high
  {
    SumBetween(xs, low, high);
    DivideBounds(Sum(xs), |xs| as real, low, high);
  }

  lemma ProfilesAreBalanced(profile: string)
    ensures WeightsFor(profile).Some? ==> Balanced(WeightsFor(profile).value)
  {
  }

  lemma ShareRises(x: real, y: real, weight: real)
    requires weight > 0.0
    ensures x <= y ==> Share(x, weight) <= Share(y, weight)
    ensures x < y ==> Share(x, weight) < Share(y, weight)
  {
  }

  lemma WeightedRises(w: Weights, f: Category -> real, g: Category -> real)
    requires Balanced(w) && forall c :: f(c) <= g(c)
    ensures Weighted(w, f) <= Weighted(w, g)
    ensures forall c :: f(c) < g(c) ==> Weighted(w, f) < Weighted(w, g)
  {
    hide Share;
    ShareRises(f(Integer), g(Integer), w.integer);
    ShareRises(f(Memory), g(Memory), w.memory);
    ShareRises(f(Throughput), g(Throughput), w.throughput);
    ShareRises(f(Latency), g(Latency), w.latency);
    forall c | f(c) < g(c)
      ensures Weighted(w, f) < Weighted(w, g)
    {
      match c case Integer => case Memory => case Throughput => case Latency =>
    }
  }

  lemma WeightedConstant(w: Weights, f: Category -> real, x: real)
    requires Balanced(w) && forall c :: f(c) == x
    ensures Weighted(w, f) == x
  {
  }

  /** The total lies between the least and the greatest category, whatever was measured. */
  lemma TotalBetweenCategories(byName: map<string, Measured>, mt: bool, w: Weights, low: real, high: real)
    requires Balanced(w) && forall c :: low <= CategoryScore(c, byName, mt) <= high
    ensures low <= TotalScore(byName, mt, w) <= high
  {
    hide CategoryScore, Weighted;
    var score := c => CategoryScore(c, byName, mt);
    WeightedRises(w, c => low, score);
    WeightedRises(w, score, c => high);
    WeightedConstant(w, c => low, low);
    WeightedConstant(w, c => high, high);
  }

  // A machine k times as good as the reference.

  ghost predicate KTimesReference(byName: map<string, Measured>, mt: bool, k: real) {
    forall name :: name in BenchmarksFor(Latency) && name in byName ==>
      byName[name].opsPerSec == k * RefOps(name, mt) && k * byName[name].p99Ns as real == RefLat(name, mt) as real
  }

  ghost predicate HasResult(c: Category, names: seq<string>, byName: map<string, Measured>) {
    exists name :: name in names && name in byName
  }

  lemma Ratio(k: real, x: real, y: real)
    requires x != 0.0 && k * x == y
    ensures y / x == k
  {
  }

  lemma KTimesPoints(c: Category, name: string, r: Measured, mt: bool, k: real)
    requires name in BenchmarksFor(Latency) && k > 0.0
    requires r.opsPerSec == k * RefOps(name, mt) && k * r.p99Ns as real == RefLat(name, mt) as real
    ensures Points(c, name, r, mt) == 1000.0 * k
  {
    hide RefOps, RefLat;
    ReferencesArePositive(name, mt);
    if c == Latency {
      if r.p99Ns <= 0 { Scale(r.p99Ns as real, 0.0, k); }
      Ratio(k, r.p99Ns as real, RefLat(name, mt) as real);
    } else {
      Ratio(k, RefOps(name, mt), r.opsPerSec);
    }
  }

  lemma {:induction false} KTimesScores(c: Category, names: seq<string>, byName: map<string, Measured>, mt: bool,
                                        k: real)
    requires k > 0.0 && KTimesReference(byName, mt, k)
    requires forall name :: name in names ==> name in BenchmarksFor(Latency)
    ensures forall x :: x in Scores(c, names, byName, mt) ==> x == 1000.0 * k
    ensures Scores(c, names, byName, mt) == [] <==> !HasResult(c, names, byName)
  {
    hide BenchmarksFor, Points, RefOps, RefLat;
    if names != [] {
      var n := |names| - 1;
      KTimesScores(c, names[..n], byName, mt, k);
      assert names == names[..n] + [names[n]];
      if names[n] in byName { KTimesPoints(c, names[n], byName[names[n]], mt, k); }
    }
  }

  lemma KTimesCategory(c: Category, byName: map<string, Measured>, mt: bool, k: real)
    requires k > 0.0 && KTimesReference(byName, mt, k)
    ensures CategoryScore(c, byName, mt) == if HasResult(c, BenchmarksFor(c), byName) then 1000.0 * k else 0.0
  {
    hide BenchmarksFor, HasResult, KTimesReference, Scores;
    forall name | name in BenchmarksFor(c)
      ensures name in BenchmarksFor(Latency)
    {
      LatencyHasAll(c, name);
    }
    KTimesScores(c, BenchmarksFor(c), byName, mt, k);
    var xs := Scores(c, BenchmarksFor(c), byName, mt);
    assert forall i :: 0 <= i < |xs| ==> xs[i] in xs;
    if xs != [] { MeanBetween(xs, 1000.0 * k, 1000.0 * k); }
  }

  /**
   * Whichever of the eight results are present, every category that has one scores 1000k,
   * and the total is 1000k exactly when no category is empty.
   */
  lemma KTimesReferenceScores(byName: map<string, Measured>, mt: bool, w: Weights, k: real)
    requires Balanced(w) && k > 0.0 && KTimesReference(byName, mt, k)
    ensures forall c :: HasResult(c, BenchmarksFor(c), byName) <==> CategoryScore(c, byName, mt) == 1000.0 * k
    ensures TotalScore(byName, mt, w) == 1000.0 * k <==> forall c :: HasResult(c, BenchmarksFor(c), byName)
  {
    hide CategoryScore, Weighted, HasResult, KTimesReference, BenchmarksFor;
    forall c
      ensures CategoryScore(c, byName, mt) == if HasResult(c, BenchmarksFor(c), byName) then 1000.0 * k else 0.0
    {
      KTimesCategory(c, byName, mt, k);
    }
    var score: Category -> real := c => CategoryScore(c, byName, mt);
    WeightedRises(w, score, c => 1000.0 * k);
    WeightedConstant(w, c => 1000.0 * k, 1000.0 * k);
    if c :| !HasResult(c, BenchmarksFor(c), byName) {
      assert score(c) < (c => 1000.0 * k)(c);
    } else {
      WeightedConstant(w, score, 1000.0 * k);
    }
  }

  /** The six bands, each with its bounds. */
  lemma LabelBands(total: real)
    ensures Label(total) == "Embedded / Low-Power" <==> total < 500.0
    ensures Label(total) == "Entry Level" <==> 500.0 <= total < 900.0
    ensures Label(total) == "Referenz" <==> 900.0 <= total < 1100.0
    ensures Label(total) == "Performance" <==> 1100.0 <= total < 2000.0
    ensures Label(total) == "High Performance" <==> 2000.0 <= total < 4000.0
    ensures Label(total) == "Workstation / Server" <==> total >= 4000.0
  {
    assert "Embedded / Low-Power"[0] == 'E' && "Entry Level"[0] == 'E' && "Referenz"[0] == 'R';
    assert "Performance"[0] == 'P' && "High Performance"[0] == 'H' && "Workstation / Server"[0] == 'W';
    assert |"Embedded / Low-Power"| == 20 && |"Entry Level"| == 11;
  }

  /**
   * With all eight results a machine k times the reference scores 1000k throughout; it is "Referenz" from 0.9 to 1.1.
   */
  lemma KTimesReferenceMachine(rs: seq<Option<Measured>>, mt: bool, profile: string, k: real)
    requires k > 0.0 && WeightsFor(profile).Some? && KTimesReference(ByName(rs), mt, k)
    requires forall name :: name in BenchmarksFor(Latency) ==> name in ByName(rs)
    ensures var m := ModeOf(ByName(rs), mt, WeightsFor(profile).value);
            m.integer == m.memory == m.throughput == m.latency == m.total == 1000.0 * k
    ensures ModeOf(ByName(rs), mt, WeightsFor(profile).value).rating == "Referenz" <==> 0.9 <= k < 1.1
  {
    hide CategoryScore, TotalScore, KTimesReference, ByName;
    ProfilesAreBalanced(profile);
    forall c
      ensures HasResult(c, BenchmarksFor(c), ByName(rs))
    {
      LatencyHasAll(c, BenchmarksFor(c)[0]);
    }
    KTimesReferenceScores(ByName(rs), mt, WeightsFor(profile).value, k);
    LabelBands(1000.0 * k);
  }

  // The same with the numbers of the table written out.

  /** The result of a benchmark with reference values ops and p99, on a machine k times as good. */
  ghost predicate TimesReference(m: map<string, Measured>, name: string, ops: real, p99: real, k: real) {
    name in m && m[name].opsPerSec == ops * k && m[name].p99Ns as real * k == p99
  }

  /** The single-threaded results of a machine k times as good as an Apple M3 Pro. */
  ghost predicate SingleTimes(m: map<string, Measured>, k: real) {
    && TimesReference(m, "primes", 82.09, 13_400_000.0, k)
    && TimesReference(m, "sorting", 237.85, 4_565_875.0, k)
    && TimesReference(m, "matrix_int", 103.84, 10_132_708.0, k)
    && TimesReference(m, "matrix_float", 139.67, 7_535_500.0, k)
    && TimesReference(m, "hashing", 2712.85, 413_584.0, k)
    && TimesReference(m, "json", 279.48, 5_312_125.0, k)
    && TimesReference(m, "php_like", 166.46, 7_258_334.0, k)
    && TimesReference(m, "apache_like", 1071.54, 1_174_542.0, k)
  }

  /** Its multi-threaded results. */
  ghost predicate MultiTimes(m: map<string, Measured>, k: real) {
    && TimesReference(m, "primes", 85.97, 177_496_500.0, k)
    && TimesReference(m, "sorting", 2099.50, 9_854_042.0, k)
    && TimesReference(m, "matrix_int", 931.61, 20_951_625.0, k)
    && TimesReference(m, "matrix_float", 1129.75, 18_790_000.0, k)
    && TimesReference(m, "hashing", 25294.70, 1_253_125.0, k)
    && TimesReference(m, "json", 2184.63, 11_374_208.0, k)
    && TimesReference(m, "php_like", 712.79, 19_927_958.0, k)
    && TimesReference(m, "apache_like", 5903.20, 3_370_917.0, k)
  }

  lemma NamesDiffer()
    ensures |"primes"| == 6 && |"sorting"| == 7 && |"matrix_int"| == 10 && |"matrix_float"| == 12
    ensures |"hashing"| == 7 && |"json"| == 4 && |"php_like"| == 8 && |"apache_like"| == 11
    ensures "sorting"[0] == 's' && "hashing"[0] == 'h'
  {
  }

  lemma SingleNumbers()
    ensures RefOps("primes", false) == 82.09 && RefLat("primes", false) == 13_400_000
    ensures RefOps("sorting", false) == 237.85 && RefLat("sorting", false) == 4_565_875
    ensures RefOps("matrix_int", false) == 103.84 && RefLat("matrix_int", false) == 10_132_708
    ensures RefOps("matrix_float", false) == 139.67 && RefLat("matrix_float", false) == 7_535_500
    ensures RefOps("hashing", false) == 2712.85 && RefLat("hashing", false) == 413_584
    ensures RefOps("json", false) == 279.48 && RefLat("json", false) == 5_312_125
    ensures RefOps("php_like", false) == 166.46 && RefLat("php_like", false) == 7_258_334
    ensures RefOps("apache_like", false) == 1071.54 && RefLat("apache_like", false) == 1_174_542
  {
    NamesDiffer();
  }

  lemma MultiNumbers()
    ensures RefOps("primes", true) == 85.97 && RefLat("primes", true) == 177_496_500
    ensures RefOps("sorting", true) == 2099.50 && RefLat("sorting", true) == 9_854_042
    ensures RefOps("matrix_int", true) == 931.61 && RefLat("matrix_int", true) == 20_951_625
    ensures RefOps("matrix_float", true) == 1129.75 && RefLat("matrix_float", true) == 18_790_000
    ensures RefOps("hashing", true) == 25294.70 && RefLat("hashing", true) == 1_253_125
    ensures RefOps("json", true) == 2184.63 && RefLat("json", true) == 11_374_208
    ensures RefOps("php_like", true) == 712.79 && RefLat("php_like", true) == 19_927_958
    ensures RefOps("apache_like", true) == 5903.20 && RefLat("apache_like", true) == 3_370_917
  {
    NamesDiffer();
  }

  ghost predicate AtReference(m: map<string, Measured>, name: string, mt: bool, k: real) {
    && name in m && m[name].opsPerSec == k * RefOps(name, mt)
    && k * m[name].p99Ns as real == RefLat(name, mt) as real
  }

  lemma TimesTable(m: map<string, Measured>, name: string, ops: real, p99: int, mt: bool, k: real)
    requires TimesReference(m, name, ops, p99 as real, k) && RefOps(name, mt) == ops && RefLat(name, mt) == p99
    ensures AtReference(m, name, mt, k)
  {
    hide RefOps, RefLat;
  }

  lemma AllAtReference(m: map<string, Measured>, mt: bool, k: real)
    requires forall name :: name in BenchmarksFor(Latency) ==> AtReference(m, name, mt, k)
    ensures KTimesReference(m, mt, k) && forall name :: name in BenchmarksFor(Latency) ==> name in m
  {
    hide RefOps, RefLat, BenchmarksFor;
  }

  lemma SingleIsKTimes(m: map<string, Measured>, k: real)
    requires SingleTimes(m, k)
    ensures KTimesReference(m, false, k) && forall name :: name in BenchmarksFor(Latency) ==> name in m
  {
    SingleNumbers();
    hide RefOps, RefLat, AtReference, TimesReference;
    TimesTable(m, "primes", 82.09, 13_400_000, false, k);
    TimesTable(m, "sorting", 237.85, 4_565_875, false, k);
    TimesTable(m, "matrix_int", 103.84, 10_132_708, false, k);
    TimesTable(m, "matrix_float", 139.67, 7_535_500, false, k);
    TimesTable(m, "hashing", 2712.85, 413_584, false, k);
    TimesTable(m, "json", 279.48, 5_312_125, false, k);
    TimesTable(m, "php_like", 166.46, 7_258_334, false, k);
    TimesTable(m, "apache_like", 1071.54, 1_174_542, false, k);
    AllAtReference(m, false, k);
  }

  lemma MultiIsKTimes(m: map<string, Measured>, k: real)
    requires MultiTimes(m, k)
    ensures KTimesReference(m, true, k) && forall name :: name in BenchmarksFor(Latency) ==> name in m
  {
    MultiNumbers();
    hide RefOps, RefLat, AtReference, TimesReference;
    TimesTable(m, "primes", 85.97, 177_496_500, true, k);
    TimesTable(m, "sorting", 2099.50, 9_854_042, true, k);
    TimesTable(m, "matrix_int", 931.61, 20_951_625, true, k);
    TimesTable(m, "matrix_float", 1129.75, 18_790_000, true, k);
    TimesTable(m, "hashing", 25294.70, 1_253_125, true, k);
    TimesTable(m, "json", 2184.63, 11_374_208, true, k);
    TimesTable(m, "php_like", 712.79, 19_927_958, true, k);
    TimesTable(m, "apache_like", 5903.20, 3_370_917, true, k);
    AllAtReference(m, true, k);
  }

  ghost predicate ScoresThroughout(m: ModeScore, points: real) {
    m.integer == m.memory == m.throughput == m.latency == m.total == points
  }

  /** In each mode, against that mode's column of the table, a machine k times the reference scores 1000k throughout. */
  lemma ReferenceMachine(byName: map<string, Measured>, mt: bool, w: Weights, k: real)
    requires Balanced(w) && k > 0.0 && if mt then MultiTimes(byName, k) else SingleTimes(byName, k)
    ensures ScoresThroughout(ModeOf(byName, mt, w), 1000.0 * k)
  {
    hide MultiTimes, SingleTimes, KTimesReference, CategoryScore, TotalScore;
    if mt { MultiIsKTimes(byName, k); } else { SingleIsKTimes(byName, k); }
    forall c
      ensures HasResult(c, BenchmarksFor(c), byName)
    {
      LatencyHasAll(c, BenchmarksFor(c)[0]);
    }
    KTimesReferenceScores(byName, mt, w, k);
  }

  function OpsPoints(m: map<string, Measured>, name: string, reference: real): real
    requires name in m && reference > 0.0
  {
    m[name].opsPerSec / reference * 1000.0
  }

  function LatencyPoints(m: map<string, Measured>, name: string, reference: int): real
    requires name in m && m[name].p99Ns > 0
  {
    reference as real / m[name].p99Ns as real * 1000.0
  }

  /** All eight benchmarks have a result, with a positive P99. */
  ghost predicate Complete(m: map<string, Measured>) {
    && "primes" in m && m["primes"].p99Ns > 0
    && "sorting" in m && m["sorting"].p99Ns > 0
    && "matrix_int" in m && m["matrix_int"].p99Ns > 0
    && "matrix_float" in m && m["matrix_float"].p99Ns > 0
    && "hashing" in m && m["hashing"].p99Ns > 0
    && "json" in m && m["json"].p99Ns > 0
    && "php_like" in m && m["php_like"].p99Ns > 0
    && "apache_like" in m && m["apache_like"].p99Ns > 0
  }

  lemma {:induction false} AllScored(c: Category, names: seq<string>, m: map<string, Measured>, mt: bool)
    requires forall name :: name in names ==> name in m
    ensures |Scores(c, names, m, mt)| == |names|
    ensures forall k :: 0 <= k < |names| ==> Scores(c, names, m, mt)[k] == Points(c, names[k], m[names[k]], mt)
  {
    hide Points;
    if names != [] { AllScored(c, names[..|names| - 1], m, mt); }
  }

  lemma SumStep(xs: seq<real>)
    requires xs != []
    ensures Sum(xs) == Sum(xs[..|xs| - 1]) + xs[|xs| - 1]
  {
  }

  lemma SumNothing()
    ensures Sum([]) == 0.0
  {
  }

  lemma SumTwo(xs: seq<real>)
    requires |xs| >= 2
    ensures Sum(xs[..2]) == xs[0] + xs[1]
  {
    SumNothing();
    hide Sum;
    SumStep(xs[..2]);
    SumStep(xs[..1]);
    assert xs[..2][..1] == xs[..1] && xs[..1][..0] == [];
  }

  lemma SumFour(xs: seq<real>)
    requires |xs| >= 4
    ensures Sum(xs[..4]) == xs[0] + xs[1] + xs[2] + xs[3]
  {
    SumTwo(xs);
    hide Sum;
    SumStep(xs[..4]);
    SumStep(xs[..3]);
    assert xs[..4][..3] == xs[..3] && xs[..3][..2] == xs[..2];
  }

  lemma SumFive(xs: seq<real>)
    requires |xs| >= 5
    ensures Sum(xs[..5]) == xs[0] + xs[1] + xs[2] + xs[3] + xs[4]
  {
    hide Sum;
    SumFour(xs);
    SumStep(xs[..5]);
    assert xs[..5][..4] == xs[..4];
  }

  lemma SumEight(xs: seq<real>)
    requires |xs| >= 8
    ensures Sum(xs[..8]) == xs[0] + xs[1] + xs[2] + xs[3] + xs[4] + xs[5] + xs[6] + xs[7]
  {
    hide Sum;
    SumFive(xs);
    SumStep(xs[..8]);
    SumStep(xs[..7]);
    SumStep(xs[..6]);
    assert xs[..8][..7] == xs[..7] && xs[..7][..6] == xs[..6] && xs[..6][..5] == xs[..5];
  }

  lemma SingleInteger(m: map<string, Measured>)
    requires Complete(m)
    ensures CategoryScore(Integer, m, false)
         == (OpsPoints(m, "primes", 82.09) + OpsPoints(m, "sorting", 237.85)) / 2.0
  {
    SingleNumbers();
    var names := BenchmarksFor(Integer);
    AllScored(Integer, names, m, false);
    var xs := Scores(Integer, names, m, false);
    SumTwo(xs);
    assert xs[..2] == xs;
    hide Scores, Sum, RefOps, RefLat;
  }

  lemma SingleMemory(m: map<string, Measured>)
    requires Complete(m)
    ensures CategoryScore(Memory, m, false)
         == (OpsPoints(m, "matrix_int", 103.84) + OpsPoints(m, "matrix_float", 139.67)
             + OpsPoints(m, "hashing", 2712.85) + OpsPoints(m, "php_like", 166.46)
             + OpsPoints(m, "apache_like", 1071.54)) / 5.0
  {
    SingleNumbers();
    var names := BenchmarksFor(Memory);
    AllScored(Memory, names, m, false);
    var xs := Scores(Memory, names, m, false);
    SumFive(xs);
    assert xs[..5] == xs;
    hide Scores, Sum, RefOps, RefLat;
  }

  lemma SingleThroughput(m: map<string, Measured>)
    requires Complete(m)
    ensures CategoryScore(Throughput, m, false)
         == (OpsPoints(m, "hashing", 2712.85) + OpsPoints(m, "json", 279.48)
             + OpsPoints(m, "php_like", 166.46) + OpsPoints(m, "apache_like", 1071.54)) / 4.0
  {
    SingleNumbers();
    var names := BenchmarksFor(Throughput);
    AllScored(Throughput, names, m, false);
    var xs := Scores(Throughput, names, m, false);
    SumFour(xs);
    assert xs[..4] == xs;
    hide Scores, Sum, RefOps, RefLat;
  }

  lemma SingleLatency(m: map<string, Measured>)
    requires Complete(m)
    ensures CategoryScore(Latency, m, false)
         == (LatencyPoints(m, "primes", 13_400_000) + LatencyPoints(m, "sorting", 4_565_875)
             + LatencyPoints(m, "matrix_int", 10_132_708) + LatencyPoints(m, "matrix_float", 7_535_500)
             + LatencyPoints(m, "hashing", 413_584) + LatencyPoints(m, "json", 5_312_125)
             + LatencyPoints(m, "php_like", 7_258_334) + LatencyPoints(m, "apache_like", 1_174_542)) / 8.0
  {
    SingleNumbers();
    var names := BenchmarksFor(Latency);
    AllScored(Latency, names, m, false);
    var xs := Scores(Latency, names, m, false);
    SumEight(xs);
    assert xs[..8] == xs;
    hide Scores, Sum, RefOps, RefLat;
  }

  lemma MultiInteger(m: map<string, Measured>)
    requires Complete(m)
    ensures CategoryScore(Integer, m, true)
         == (OpsPoints(m, "primes", 85.97) + OpsPoints(m, "sorting", 2099.50)) / 2.0
  {
    MultiNumbers();
    var names := BenchmarksFor(Integer);
    AllScored(Integer, names, m, true);
    var xs := Scores(Integer, names, m, true);
    SumTwo(xs);
    assert xs[..2] == xs;
    hide Scores, Sum, RefOps, RefLat;
  }

  lemma MultiMemory(m: map<string, Measured>)
    requires Complete(m)
    ensures CategoryScore(Memory, m, true)
         == (OpsPoints(m, "matrix_int", 931.61) + OpsPoints(m, "matrix_float", 1129.75)
             + OpsPoints(m, "hashing", 25294.70) + OpsPoints(m, "php_like", 712.79)
             + OpsPoints(m, "apache_like", 5903.20)) / 5.0
  {
    MultiNumbers();
    var names := BenchmarksFor(Memory);
    AllScored(Memory, names, m, true);
    var xs := Scores(Memory, names, m, true);
    SumFive(xs);
    assert xs[..5] == xs;
    hide Scores, Sum, RefOps, RefLat;
  }

  lemma MultiThroughput(m: map<string, Measured>)
    requires Complete(m)
    ensures CategoryScore(Throughput, m, true)
         == (OpsPoints(m, "hashing", 25294.70) + OpsPoints(m, "json", 2184.63)
             + OpsPoints(m, "php_like", 712.79) + OpsPoints(m, "apache_like", 5903.20)) / 4.0
  {
    MultiNumbers();
    var names := BenchmarksFor(Throughput);
    AllScored(Throughput, names, m, true);
    var xs := Scores(Throughput, names, m, true);
    SumFour(xs);
    assert xs[..4] == xs;
    hide Scores, Sum, RefOps, RefLat;
  }

  lemma MultiLatency(m: map<string, Measured>)
    requires Complete(m)
    ensures CategoryScore(Latency, m, true)
         == (LatencyPoints(m, "primes", 177_496_500) + LatencyPoints(m, "sorting", 9_854_042)
             + LatencyPoints(m, "matrix_int", 20_951_625) + LatencyPoints(m, "matrix_float", 18_790_000)
             + LatencyPoints(m, "hashing", 1_253_125) + LatencyPoints(m, "json", 11_374_208)
             + LatencyPoints(m, "php_like", 19_927_958) + LatencyPoints(m, "apache_like", 3_370_917)) / 8.0
  {
    MultiNumbers();
    var names := BenchmarksFor(Latency);
    AllScored(Latency, names, m, true);
    var xs := Scores(Latency, names, m, true);
    SumEight(xs);
    assert xs[..8] == xs;
    hide Scores, Sum, RefOps, RefLat;
  }

  /** The weights of each profile, category by category. */
  lemma TotalOfProfile(profile: string, byName: map<string, Measured>, mt: bool)
    requires WeightsFor(profile).Some?
    ensures var total := TotalScore(byName, mt, WeightsFor(profile).value);
            var i, m := CategoryScore(Integer, byName, mt), CategoryScore(Memory, byName, mt);
            var t, l := CategoryScore(Throughput, byName, mt), CategoryScore(Latency, byName, mt);
            total == (if profile == "database" then 0.20 * i + 0.20 * m + 0.35 * t + 0.25 * l
                      else if profile == "batch" then 0.40 * i + 0.20 * m + 0.30 * t + 0.10 * l
                      else 0.30 * i + 0.30 * m + 0.25 * t + 0.15 * l)
  {
    hide CategoryScore;
  }

  method Score(st: seq<Option<Measured>>, mt: seq<Option<Measured>>, profile: string) returns (r: Option<Outcome>)
    ensures r.None? <==> profile !in {"", "default", "database", "batch"}
    ensures r.Some? ==> WeightsFor(profile) == Some(r.value.weights)
    ensures r.Some? ==> r.value.profile == (if profile == "" then "default" else profile)
    ensures r.Some? ==> r.value.singleThread == ModeOf(ByName(st), false, r.value.weights)
    ensures r.Some? ==> r.value.multiThread == ModeOf(ByName(mt), true, r.value.weights)
    ensures r.Some? ==> forall k :: k > 0.0 && SingleTimes(ByName(st), k) ==>
                          ScoresThroughout(r.value.singleThread, 1000.0 * k)
    ensures r.Some? ==> forall k :: k > 0.0 && MultiTimes(ByName(mt), k) ==>
                          ScoresThroughout(r.value.multiThread, 1000.0 * k)
  {
    hide ModeOf, ByName, SingleTimes, MultiTimes, ScoresThroughout;
    var w := WeightsFor(profile);
    if w.None? {
      return None;
    }
    var single := ComputeMode(st, false, w.value);
    var multi := ComputeMode(mt, true, w.value);
    ProfilesAreBalanced(profile);
    forall k | k > 0.0 && SingleTimes(ByName(st), k)
      ensures ScoresThroughout(single, 1000.0 * k)
    {
      ReferenceMachine(ByName(st), false, w.value, k);
    }
    forall k | k > 0.0 && MultiTimes(ByName(mt), k)
      ensures ScoresThroughout(multi, 1000.0 * k)
    {
      ReferenceMachine(ByName(mt), true, w.value, k);
    }
    return Some(Outcome(single, multi, w.value, if profile == "" then "default" else profile));
  }

  // Better measurements.

  ghost predicate Below(c: Category, names: seq<string>, low: map<string, Measured>, high: map<string, Measured>,
                        mt: bool)
  {
    forall name :: name in names ==>
      (name in low <==> name in high)
      && (name in low && name in high ==> Points(c, name, low[name], mt) <= Points(c, name, high[name], mt))
  }

  ghost predicate StrictlyBelow(c: Category, names: seq<string>, low: map<string, Measured>,
                                high: map<string, Measured>, mt: bool)
  {
    exists name :: name in names && name in low && name in high
      && Points(c, name, low[name], mt) < Points(c, name, high[name], mt)
  }

  lemma SplitBelow(c: Category, names: seq<string>, low: map<string, Measured>, high: map<string, Measured>, mt: bool)
    requires names != [] && Below(c, names, low, high, mt)
    ensures Below(c, names[..|names| - 1], low, high, mt) && Below(c, [names[|names| - 1]], low, high, mt)
  {
  }

  lemma SplitStrictlyBelow(c: Category, names: seq<string>, low: map<string, Measured>, high: map<string, Measured>,
                           mt: bool)
    requires names != [] && StrictlyBelow(c, names, low, high, mt)
    ensures StrictlyBelow(c, names[..|names| - 1], low, high, mt)
         || StrictlyBelow(c, [names[|names| - 1]], low, high, mt)
  {
  }

  lemma LastScores(c: Category, names: seq<string>, byName: map<string, Measured>, mt: bool)
    requires names != []
    ensures var n := |names| - 1; var xs := Scores(c, names[..n], byName, mt);
            if names[n] in byName then
              Scores(c, names, byName, mt) == xs + [Points(c, names[n], byName[names[n]], mt)]
              && Sum(Scores(c, names, byName, mt)) == Sum(xs) + Points(c, names[n], byName[names[n]], mt)
            else Scores(c, names, byName, mt) == xs
  {
  }

  lemma LastRises(c: Category, name: string, low: map<string, Measured>, high: map<string, Measured>, mt: bool)
    requires Below(c, [name], low, high, mt)
    ensures name in low <==> name in high
    ensures name in low ==> Points(c, name, low[name], mt) <= Points(c, name, high[name], mt)
    ensures StrictlyBelow(c, [name], low, high, mt) ==>
              name in low && Points(c, name, low[name], mt) < Points(c, name, high[name], mt)
  {
  }

  lemma {:induction false} ScoresRise(c: Category, names: seq<string>, low: map<string, Measured>,
                                      high: map<string, Measured>, mt: bool)
    requires Below(c, names, low, high, mt)
    ensures |Scores(c, names, low, mt)| == |Scores(c, names, high, mt)|
    ensures Sum(Scores(c, names, low, mt)) <= Sum(Scores(c, names, high, mt))
    ensures StrictlyBelow(c, names, low, high, mt) ==>
              Scores(c, names, low, mt) != []
              && Sum(Scores(c, names, low, mt)) < Sum(Scores(c, names, high, mt))
  {
    if names != [] {
      hide Points, Sum, Below, StrictlyBelow, Scores;
      SplitBelow(c, names, low, high, mt);
      if StrictlyBelow(c, names, low, high, mt) { SplitStrictlyBelow(c, names, low, high, mt); }
      LastScores(c, names, low, mt);
      LastScores(c, names, high, mt);
      ScoresRise(c, names[..|names| - 1], low, high, mt);
      LastRises(c, names[|names| - 1], low, high, mt);
    }
  }

  lemma DivideRises(x: real, y: real, n: real)
    requires n > 0.0
    ensures x <= y ==> x / n <= y / n
    ensures x < y ==> x / n < y / n
  {
  }

  lemma CategoryRises(c: Category, low: map<string, Measured>, high: map<string, Measured>, mt: bool)
    requires Below(c, BenchmarksFor(c), low, high, mt)
    ensures CategoryScore(c, low, mt) <= CategoryScore(c, high, mt)
    ensures StrictlyBelow(c, BenchmarksFor(c), low, high, mt) ==> CategoryScore(c, low, mt) < CategoryScore(c, high, mt)
  {
    hide Below, StrictlyBelow, BenchmarksFor, Scores, Sum;
    ScoresRise(c, BenchmarksFor(c), low, high, mt);
    var xs, ys := Scores(c, BenchmarksFor(c), low, mt), Scores(c, BenchmarksFor(c), high, mt);
    if xs != [] { DivideRises(Sum(xs), Sum(ys), |xs| as real); }
  }

  /** high has at least low's operations per second and at most its P99, but no P99 becomes nonpositive. */
  ghost predicate Better(low: map<string, Measured>, high: map<string, Measured>) {
    forall name :: name in BenchmarksFor(Latency) ==>
      (name in low <==> name in high)
      && (name in low && name in high ==>
            low[name].opsPerSec <= high[name].opsPerSec
            && high[name].p99Ns <= low[name].p99Ns && (high[name].p99Ns > 0 || low[name].p99Ns <= 0))
  }

  lemma QuotientFalls(r: real, x: real, y: real)
    requires r > 0.0 && 0.0 < x <= y
    ensures r / y <= r / x
  {
  }

  /** A lower P99 never costs points exactly when it does not fall from positive to nonpositive. */
  lemma LatencyPointsRiseIff(slow: int, fast: int, reference: int)
    requires fast <= slow && reference > 0
    ensures NormalizeLatency(slow, reference) <= NormalizeLatency(fast, reference) <==> fast > 0 || slow <= 0
  {
    if fast > 0 {
      QuotientFalls(reference as real, fast as real, slow as real);
    } else if slow > 0 {
      DivideRises(0.0, reference as real, slow as real);
    }
  }

  lemma OpsPointsRise(slow: real, fast: real, reference: real)
    requires slow <= fast && reference > 0.0
    ensures Normalize(slow, reference) <= Normalize(fast, reference)
  {
  }

  lemma BetterPoints(c: Category, low: map<string, Measured>, high: map<string, Measured>, mt: bool)
    requires Better(low, high)
    ensures Below(c, BenchmarksFor(c), low, high, mt)
  {
    hide RefOps, RefLat, Normalize, NormalizeLatency, BenchmarksFor;
    forall name | name in BenchmarksFor(c)
      ensures name in low <==> name in high
      ensures name in low && name in high ==> Points(c, name, low[name], mt) <= Points(c, name, high[name], mt)
    {
      LatencyHasAll(c, name);
      ReferencesArePositive(name, mt);
      if name in low {
        OpsPointsRise(low[name].opsPerSec, high[name].opsPerSec, RefOps(name, mt));
        LatencyPointsRiseIff(low[name].p99Ns, high[name].p99Ns, RefLat(name, mt));
      }
    }
  }

  /** Scores are monotone in operations per second and antitone in positive P99s. */
  lemma BetterScoresHigher(low: map<string, Measured>, high: map<string, Measured>, mt: bool, w: Weights)
    requires Balanced(w) && Better(low, high)
    ensures forall c :: CategoryScore(c, low, mt) <= CategoryScore(c, high, mt)
    ensures TotalScore(low, mt, w) <= TotalScore(high, mt, w)
  {
    hide CategoryScore, Better, Below, BenchmarksFor, Weighted;
    forall c
      ensures CategoryScore(c, low, mt) <= CategoryScore(c, high, mt)
    {
      BetterPoints(c, low, high, mt);
      CategoryRises(c, low, high, mt);
    }
    WeightedRises(w, c => CategoryScore(c, low, mt), c => CategoryScore(c, high, mt));
  }

  lemma OnlyLatencyChanges(c: Category, byName: map<string, Measured>, name: string, fast: int, mt: bool)
    requires name in byName
    ensures var changed := byName[name := byName[name].(p99Ns := fast)];
            (c != Latency ==> Below(c, BenchmarksFor(c), byName, changed, mt)
                              && Below(c, BenchmarksFor(c), changed, byName, mt))
  {
  }

  lemma LatencyChanges(byName: map<string, Measured>, name: string, fast: int, mt: bool)
    requires name in byName && name in BenchmarksFor(Latency) && fast <= byName[name].p99Ns
    ensures var changed := byName[name := byName[name].(p99Ns := fast)];
            if fast > 0 || byName[name].p99Ns <= 0 then Below(Latency, BenchmarksFor(Latency), byName, changed, mt)
            else Below(Latency, BenchmarksFor(Latency), changed, byName, mt)
                 && StrictlyBelow(Latency, BenchmarksFor(Latency), changed, byName, mt)
  {
    hide RefOps, RefLat, NormalizeLatency, BenchmarksFor;
    var changed := byName[name := byName[name].(p99Ns := fast)];
    ReferencesArePositive(name, mt);
    LatencyPointsRiseIff(byName[name].p99Ns, fast, RefLat(name, mt));
    assert Points(Latency, name, changed[name], mt) == NormalizeLatency(fast, RefLat(name, mt));
  }

  /** Lowering one benchmark's P99 keeps the total from falling exactly when the P99 does not become nonpositive. */
  lemma FasterIsNoWorseIff(byName: map<string, Measured>, name: string, fast: int, mt: bool, w: Weights)
    requires Balanced(w) && name in byName && name in BenchmarksFor(Latency) && fast <= byName[name].p99Ns
    ensures TotalScore(byName, mt, w) <= TotalScore(byName[name := byName[name].(p99Ns := fast)], mt, w)
            <==> fast > 0 || byName[name].p99Ns <= 0
  {
    hide CategoryScore, Below, StrictlyBelow, BenchmarksFor, Weighted;
    var changed := byName[name := byName[name].(p99Ns := fast)];
    LatencyChanges(byName, name, fast, mt);
    forall c | c != Latency
      ensures CategoryScore(c, byName, mt) == CategoryScore(c, changed, mt)
    {
      OnlyLatencyChanges(c, byName, name, fast, mt);
      CategoryRises(c, byName, changed, mt);
      CategoryRises(c, changed, byName, mt);
    }
    var before: Category -> real := c => CategoryScore(c, byName, mt);
    var after: Category -> real := c => CategoryScore(c, changed, mt);
    if fast > 0 || byName[name].p99Ns <= 0 {
      CategoryRises(Latency, byName, changed, mt);
      WeightedRises(w, before, after);
    } else {
      CategoryRises(Latency, changed, byName, mt);
      assert after(Latency) < before(Latency);
      WeightedRises(w, after, before);
    }
  }

  // The order of the results.

  ghost predicate OnePerName(rs: seq<Option<Measured>>) {
    forall x, y :: x in rs && y in rs && x.Some? && y.Some? && x.value.name == y.value.name ==> x == y
  }

  lemma {:induction false} ByNameHolds(rs: seq<Option<Measured>>, name: string)
    ensures name in ByName(rs) ==> ByName(rs)[name].name == name && Some(ByName(rs)[name]) in rs
    ensures forall r :: Some(r) in rs && r.name == name ==> name in ByName(rs)
  {
    if rs != [] {
      var n := |rs| - 1;
      assert rs == rs[..n] + [rs[n]];
      ByNameHolds(rs[..n], name);
    }
  }

  lemma SameByName(rs: seq<Option<Measured>>, ts: seq<Option<Measured>>)
    requires multiset(rs) == multiset(ts) && OnePerName(rs)
    ensures ByName(ts) == ByName(rs)
  {
    assert forall x :: x in rs <==> x in multiset(rs);
    assert forall x :: x in ts <==> x in multiset(ts);
    forall name
      ensures name in ByName(ts) <==> name in ByName(rs)
      ensures name in ByName(ts) && name in ByName(rs) ==> ByName(ts)[name] == ByName(rs)[name]
    {
      ByNameHolds(rs, name);
      ByNameHolds(ts, name);
    }
  }

  lemma MovedToEnd(rs: seq<Option<Measured>>, x: Option<Measured>) returns (ts: seq<Option<Measured>>)
    requires x in rs
    ensures multiset(ts) == multiset(rs) && ts != [] && ts[|ts| - 1] == x
  {
    var i :| 0 <= i < |rs| && rs[i] == x;
    ts := rs[..i] + rs[i + 1..] + [x];
    assert rs == rs[..i] + [x] + rs[i + 1..];
  }

  /** The results looked up by name depend on their order exactly when two different ones share a name. */
  lemma NamesIgnoreOrderIff(rs: seq<Option<Measured>>)
    ensures (forall ts :: multiset(ts) == multiset(rs) ==> ByName(ts) == ByName(rs)) <==> OnePerName(rs)
  {
    if OnePerName(rs) {
      forall ts | multiset(ts) == multiset(rs)
        ensures ByName(ts) == ByName(rs)
      {
        SameByName(rs, ts);
      }
    } else {
      var x, y :| x in rs && y in rs && x.Some? && y.Some? && x.value.name == y.value.name && x != y;
      var ts := MovedToEnd(rs, x);
      var us := MovedToEnd(rs, y);
      assert ByName(ts)[x.value.name] != ByName(us)[x.value.name];
      assert ByName(ts) != ByName(rs) || ByName(us) != ByName(rs);
    }
  }

  /** Of the results with one name the last counts. */
  lemma {:induction false} LastCounts(rs: seq<Option<Measured>>, i: nat)
    requires i < |rs| && rs[i].Some?
    requires forall j :: i < j < |rs| && rs[j].Some? ==> rs[j].value.name != rs[i].value.name
    ensures rs[i].value.name in ByName(rs) && ByName(rs)[rs[i].value.name] == rs[i].value
  {
    if i < |rs| - 1 { LastCounts(rs[..|rs| - 1], i); }
  }

  /** Results that share a name earn the same points in every category that the name feeds. */
  ghost predicate SamePoints(rs: seq<Option<Measured>>, mt: bool) {
    forall c, x, y ::
      Some(x) in rs && Some(y) in rs && x.name == y.name && x.name in BenchmarksFor(c) ==>
        Points(c, x.name, x, mt) == Points(c, y.name, y, mt)
  }

  lemma SamePointsBelow(c: Category, rs: seq<Option<Measured>>, ts: seq<Option<Measured>>, mt: bool)
    requires multiset(rs) == multiset(ts) && SamePoints(rs, mt)
    ensures Below(c, BenchmarksFor(c), ByName(rs), ByName(ts), mt)
  {
    hide BenchmarksFor, Points, ByName;
    assert forall x :: x in rs <==> x in multiset(rs);
    assert forall x :: x in ts <==> x in multiset(ts);
    forall name | name in BenchmarksFor(c)
      ensures name in ByName(rs) <==> name in ByName(ts)
      ensures name in ByName(rs) && name in ByName(ts) ==>
                Points(c, name, ByName(rs)[name], mt) <= Points(c, name, ByName(ts)[name], mt)
    {
      ByNameHolds(rs, name);
      ByNameHolds(ts, name);
    }
  }

  lemma SamePointsScoreAlike(c: Category, rs: seq<Option<Measured>>, ts: seq<Option<Measured>>, mt: bool)
    requires multiset(rs) == multiset(ts) && SamePoints(rs, mt)
    ensures CategoryScore(c, ByName(ts), mt) == CategoryScore(c, ByName(rs), mt)
  {
    hide BenchmarksFor, CategoryScore, ByName, Below;
    assert forall x :: x in rs <==> x in multiset(rs);
    assert forall x :: x in ts <==> x in multiset(ts);
    SamePointsBelow(c, rs, ts, mt);
    SamePointsBelow(c, ts, rs, mt);
    CategoryRises(c, ByName(rs), ByName(ts), mt);
    CategoryRises(c, ByName(ts), ByName(rs), mt);
  }

  lemma EitherOrder(rest: seq<Option<Measured>>, x: Option<Measured>, y: Option<Measured>)
    ensures multiset(rest + [x, y]) == multiset(rest + [x]) + multiset{y} == multiset(rest + [y, x])
  {
  }

  lemma TwoMovedToEnd(rs: seq<Option<Measured>>, x: Option<Measured>, y: Option<Measured>)
    returns (rest: seq<Option<Measured>>)
    requires x in rs && y in rs && x != y
    ensures multiset(rest + [x, y]) == multiset(rs) == multiset(rest + [y, x])
  {
    var ts := MovedToEnd(rs, y);
    var front := ts[..|ts| - 1];
    assert ts == front + [y];
    assert x in multiset(rs);
    var us := MovedToEnd(front, x);
    rest := us[..|us| - 1];
    assert us == rest + [x];
    EitherOrder(rest, x, y);
  }

  lemma LastOfTwoWins(rest: seq<Option<Measured>>, x: Measured, y: Measured)
    requires x.name == y.name
    ensures ByName(rest + [Some(y), Some(x)]) == ByName(rest)[x.name := x]
  {
    var ts := rest + [Some(y), Some(x)];
    assert ts[..|ts| - 1] == rest + [Some(y)] && (rest + [Some(y)])[..|rest|] == rest;
    assert ByName(ts) == ByName(rest + [Some(y)])[x.name := x];
  }

  /** Two results of one name with different points: putting one or the other last changes the category. */
  lemma OrderMatters(c: Category, rs: seq<Option<Measured>>, x: Measured, y: Measured, mt: bool)
    returns (ts: seq<Option<Measured>>)
    requires Some(x) in rs && Some(y) in rs && x.name == y.name && x.name in BenchmarksFor(c)
    requires Points(c, x.name, x, mt) < Points(c, y.name, y, mt)
    ensures multiset(ts) == multiset(rs) && CategoryScore(c, ByName(ts), mt) != CategoryScore(c, ByName(rs), mt)
  {
    hide BenchmarksFor, Points, CategoryScore, ByName;
    var rest := TwoMovedToEnd(rs, Some(x), Some(y));
    LastOfTwoWins(rest, x, y);
    LastOfTwoWins(rest, y, x);
    CategoryRises(c, ByName(rest)[x.name := x], ByName(rest)[y.name := y], mt);
    var low, high := rest + [Some(y), Some(x)], rest + [Some(x), Some(y)];
    ts := if CategoryScore(c, ByName(low), mt) == CategoryScore(c, ByName(rs), mt) then high else low;
  }

  /**
   * The category scores do not depend on the order of the results exactly if results that share a name earn the same
   * points.
   */
  lemma OrderIsIrrelevantIff(rs: seq<Option<Measured>>, mt: bool)
    ensures (forall ts :: multiset(ts) == multiset(rs) ==>
               forall c :: CategoryScore(c, ByName(ts), mt) == CategoryScore(c, ByName(rs), mt))
            <==> SamePoints(rs, mt)
  {
    hide BenchmarksFor, Points, CategoryScore, ByName;
    if SamePoints(rs, mt) {
      forall ts, c | multiset(ts) == multiset(rs)
        ensures CategoryScore(c, ByName(ts), mt) == CategoryScore(c, ByName(rs), mt)
      {
        SamePointsScoreAlike(c, rs, ts, mt);
      }
    } else {
      var c, x, y :| Some(x) in rs && Some(y) in rs && x.name == y.name && x.name in BenchmarksFor(c)
        && Points(c, x.name, x, mt) != Points(c, y.name, y, mt);
      if Points(c, x.name, x, mt) < Points(c, y.name, y, mt) {
        var ts := OrderMatters(c, rs, x, y, mt);
      } else {
        var ts := OrderMatters(c, rs, y, x, mt);
      }
    }
  }

  lemma ModesAgreeIff(byName: map<string, Measured>, other: map<string, Measured>, mt: bool, w: Weights)
    ensures ModeOf(byName, mt, w) == ModeOf(other, mt, w) <==>
              forall c :: CategoryScore(c, byName, mt) == CategoryScore(c, other, mt)
  {
    hide CategoryScore, Label;
    if ModeOf(byName, mt, w) == ModeOf(other, mt, w) {
      forall c
        ensures CategoryScore(c, byName, mt) == CategoryScore(c, other, mt)
      {
        match c case Integer => case Memory => case Throughput => case Latency =>
      }
    }
  }

  /** The whole score of a mode, its total and label included, is independent of the order on the same condition. */
  lemma ModeIgnoresOrderIff(rs: seq<Option<Measured>>, mt: bool, w: Weights)
    ensures (forall ts :: multiset(ts) == multiset(rs) ==> ModeOf(ByName(ts), mt, w) == ModeOf(ByName(rs), mt, w))
            <==> SamePoints(rs, mt)
  {
    hide CategoryScore, ByName, SamePoints, ModeOf;
    OrderIsIrrelevantIff(rs, mt);
    forall ts | multiset(ts) == multiset(rs)
      ensures ModeOf(ByName(ts), mt, w) == ModeOf(ByName(rs), mt, w) <==>
                forall c :: CategoryScore(c, ByName(ts), mt) == CategoryScore(c, ByName(rs), mt)
    {
      ModesAgreeIff(ByName(ts), ByName(rs), mt, w);
    }
  }

  /** With one result per name no order changes anything, in either mode and under any weights. */
  lemma DistinctNamesIgnoreOrder(rs: seq<Option<Measured>>, ts: seq<Option<Measured>>, mt: bool, w: Weights)
    requires multiset(ts) == multiset(rs) && OnePerName(rs)
    ensures SamePoints(rs, mt) && ModeOf(ByName(ts), mt, w) == ModeOf(ByName(rs), mt, w)
    ensures TotalScore(ByName(ts), mt, w) == TotalScore(ByName(rs), mt, w)
  {
    SameByName(rs, ts);
  }
}
