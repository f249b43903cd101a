/**
 * Helpers of the data-source page: the quantile selection used when profiling a
 * column, the file-name check made before a saved analysis is read back, and the
 * choice of reader for an uploaded dataset file.
 */
module DataSourceUtils {
  import opened Common

  // ---------------------------------------------------------------------------
  // getQuantiles
  // ---------------------------------------------------------------------------

  /** Ascending order, as `sort((a, b) => a - b)` leaves an array of numbers. */
  predicate Sorted(s: seq<real>) {
    forall i, j :: 0 <= i < j < |s| ==> s[i] <= s[j]
  }

  /** Inserts `x` into an ascending sequence before the first element not below it. */
  function Insert(x: real, s: seq<real>): (r: seq<real>)
    ensures |r| == |s| + 1
    ensures x in r
  {
    if s == [] then [x]
    else if x <= s[0] then [x] + s
    else [s[0]] + Insert(x, s[1..])
  }

  /** Insertion adds exactly one copy of `x` and keeps every other element. */
  lemma {:induction false} InsertAddsOneCopy(x: real, s: seq<real>)
    ensures multiset(Insert(x, s)) == multiset(s) + multiset{x}
  {
    if s != [] && x > s[0] {
      assert s == [s[0]] + s[1..];
      InsertAddsOneCopy(x, s[1..]);
    }
  }

  /** Insertion keeps a sequence ascending. */
  lemma {:induction false} InsertKeepsSorted(x: real, s: seq<real>)
    requires Sorted(s)
    ensures Sorted(Insert(x, s))
  {
    if s != [] && x > s[0] {
      var tail := s[1..];
      InsertKeepsSorted(x, tail);
      InsertAddsOneCopy(x, tail);
      var rest := Insert(x, tail);
      forall k | 0 <= k < |rest|
        ensures s[0] <= rest[k]
      {
        InsertedElement(x, tail, rest[k]);
        if rest[k] != x {
          var j :| 0 <= j < |tail| && tail[j] == rest[k];
          assert s[j + 1] == rest[k];
        }
      }
      PrependSorted(s[0], rest);
    }
  }

  lemma InsertedElement(x: real, tail: seq<real>, y: real)
    requires multiset(Insert(x, tail)) == multiset(tail) + multiset{x}
    requires y in Insert(x, tail)
    ensures y == x || y in tail
  {
    assert y in multiset(Insert(x, tail));
  }

  lemma PrependSorted(h: real, t: seq<real>)
    requires Sorted(t)
    requires forall k :: 0 <= k < |t| ==> h <= t[k]
    ensures Sorted([h] + t)
  {
  }

  /**
   * The sorted copy that `[...values].sort((a, b) => a - b)` produces: ascending
   * and a permutation of `values`. The argument is a value, so the caller's
   * sequence is never changed.
   */
  function SortAscending(values: seq<real>): (r: seq<real>)
    ensures Sorted(r)
    ensures multiset(r) == multiset(values)
    ensures |r| == |values|
  {
    if values == [] then []
    else
      var rest := SortAscending(values[1..]);
      InsertKeepsSorted(values[0], rest);
      InsertAddsOneCopy(values[0], rest);
      assert values == [values[0]] + values[1..];
      Insert(values[0], rest)
  }

  /** `sorted[k]` for any integer `k`: no number (`undefined`) outside the array. */
  function At(sorted: seq<real>, k: int): (v: Option<real>)
    ensures v.Some? <==> 0 <= k < |sorted|
    ensures v.Some? ==> v.value == sorted[k]
  {
    if 0 <= k < |sorted| then Some(sorted[k]) else None
  }

  /**
   * The quantile of `sorted` at percent `p`: the order statistic at position
   * `floor(p * n)`, or no number when that position lies outside the values.
   */
  function OrderStatistic(sorted: seq<real>, p: real): (q: Option<real>)
    ensures q.Some? <==> 0 <= Rank(p, |sorted|) < |sorted|
    ensures q.Some? ==> q.value in sorted
  {
    At(sorted, Rank(p, |sorted|))
  }

  /** `Math.floor(p * n)`. */
  function Rank(p: real, n: nat): (k: int)
    ensures k as real <= p * n as real < k as real + 1.0
  {
    (p * n as real).Floor
  }

  /** `(a + b) / 2`, where arithmetic on a missing value gives no number (`NaN`). */
  function Midpoint(a: Option<real>, b: Option<real>): (m: Option<real>)
    ensures m.Some? <==> a.Some? && b.Some?
    ensures m.Some? && a == b ==> m == a
  {
    if a.Some? && b.Some? then Some((a.value + b.value) / 2.0) else None
  }

  /**
   * getQuantiles: sorts a copy of `values`, then for each percent `p` in order
   * computes `pi = p * n`; when `pi` has a fractional part it takes
   * `sorted[floor(pi)]`, otherwise the "midpoint"
   * `(sorted[floor(pi)] + sorted[min(floor(pi), n - 1)]) / 2`. Both branches
   * yield the order statistic at `floor(p * n)` (the midpoint averages one
   * element with itself), and no number when that index is outside the values.
   */
  method GetQuantiles(values: seq<real>, percents: seq<real>) returns (qts: seq<Option<real>>)
    ensures |qts| == |percents|
    ensures forall i :: 0 <= i < |percents| ==>
      qts[i] == OrderStatistic(SortAscending(values), percents[i])
  {
    var sortedValues := SortAscending(values);
    var n := |values|;
    qts := [];
    var i := 0;
    while i < |percents|
      invariant 0 <= i <= |percents|
      invariant |qts| == i
      invariant forall j :: 0 <= j < i ==> qts[j] == OrderStatistic(sortedValues, percents[j])
    {
      var pi := percents[i] * n as real;
      var floorPi := Rank(percents[i], n);
      if pi > floorPi as real {
        qts := qts + [At(sortedValues, floorPi)];
      } else {
        var other := if floorPi < n - 1 then floorPi else n - 1;
        var mid := Midpoint(At(sortedValues, floorPi), At(sortedValues, other));
        MidpointCollapses(sortedValues, floorPi);
        qts := qts + [mid];
      }
      i := i + 1;
    }
  }

  /** The "midpoint" of getQuantiles averages the element at `k` with itself. */
  lemma MidpointCollapses(sorted: seq<real>, k: int)
    ensures Midpoint(At(sorted, k), At(sorted, if k < |sorted| - 1 then k else |sorted| - 1)) == At(sorted, k)
  {
  }

  /**
   * Exactly the percents in `[0, 1)` give a number on non-empty values; `p == 1`
   * reads one past the last element, and empty values never give a number.
   */
  lemma QuantileDefinedRange(values: seq<real>, p: real)
    ensures OrderStatistic(SortAscending(values), p).Some? <==> |values| > 0 && 0.0 <= p < 1.0
  {
    var sorted := SortAscending(values);
    RankInRange(p, |sorted|);
  }

  /** `floor(p * n)` indexes `n` values exactly when there are some and `p` lies in `[0, 1)`. */
  lemma RankInRange(p: real, n: nat)
    ensures 0 <= Rank(p, n) < n <==> n > 0 && 0.0 <= p < 1.0
  {
    if n == 0 {
      RankOfNone(p);
    } else {
      RankNonNegative(p, n);
      RankBelowCount(p, n);
    }
  }

  /** With no values every percent reads position 0. */
  lemma RankOfNone(p: real)
    ensures Rank(p, 0) == 0
  {
    assert p * 0 as real == 0.0;
  }

  /** On non-empty values the read position is non-negative exactly for non-negative percents. */
  lemma RankNonNegative(p: real, n: nat)
    requires n > 0
    ensures 0 <= Rank(p, n) <==> 0.0 <= p
  {
    var m := n as real;
    var k := Rank(p, n);
    if 0.0 <= p {
      ScaledNonNegative(p, m);
      assert p * m < k as real + 1.0;
    } else {
      ScaledNegative(p, m);
      assert k as real <= p * m;
    }
  }

  /** On non-empty values the read position is below the count exactly for percents below 1. */
  lemma RankBelowCount(p: real, n: nat)
    requires n > 0
    ensures Rank(p, n) < n <==> p < 1.0
  {
    var m := n as real;
    var k := Rank(p, n);
    if p < 1.0 {
      ScaledBelow(p, m);
      assert k as real <= p * m;
    } else {
      ScaledAtLeast(p, m);
      assert p * m < k as real + 1.0;
    }
  }

  // Sign facts about `p * m` for a positive count `m`, kept apart from `Rank` so
  // that each proof sees either the product or the floor, not both.

  lemma ScaledNonNegative(p: real, m: real)
    requires p >= 0.0 && m > 0.0
    ensures p * m >= 0.0
  {
  }

  lemma ScaledNegative(p: real, m: real)
    requires p < 0.0 && m > 0.0
    ensures p * m < 0.0
  {
    assert (0.0 - p) * m > 0.0;
  }

  lemma ScaledBelow(p: real, m: real)
    requires p < 1.0 && m > 0.0
    ensures p * m < m
  {
    assert (1.0 - p) * m > 0.0;
  }

  lemma ScaledAtLeast(p: real, m: real)
    requires p >= 1.0 && m > 0.0
    ensures p * m >= m
  {
    assert (p - 1.0) * m >= 0.0;
  }

  /**
   * Quantiles never decrease as the percent grows: the order statistic read for
   * a larger percent sits at the same or a later position of the sorted copy.
   */
  lemma QuantilesMonotone(values: seq<real>, p1: real, p2: real)
    requires OrderStatistic(SortAscending(values), p1).Some?
    requires OrderStatistic(SortAscending(values), p2).Some?
    requires p1 <= p2
    ensures OrderStatistic(SortAscending(values), p1).value
         <= OrderStatistic(SortAscending(values), p2).value
  {
    var sorted := SortAscending(values);
    var n := |sorted|;
    RankMonotone(p1, p2, n);
    SortedAt(sorted, Rank(p1, n), Rank(p2, n));
  }

  /** A larger percent reads the same or a later position. */
  lemma RankMonotone(p1: real, p2: real, n: nat)
    requires p1 <= p2
    ensures Rank(p1, n) <= Rank(p2, n)
  {
    var m := n as real;
    assert (p2 - p1) * m >= 0.0;
    assert p2 * m - p1 * m == (p2 - p1) * m;
  }

  lemma SortedAt(s: seq<real>, i: int, j: int)
    requires Sorted(s) && 0 <= i <= j < |s|
    ensures s[i] <= s[j]
  {
  }

  /** Every quantile that is a number is one of the input values. */
  lemma QuantileIsAnInputValue(values: seq<real>, p: real)
    requires OrderStatistic(SortAscending(values), p).Some?
    ensures OrderStatistic(SortAscending(values), p).value in multiset(values)
  {
    var sorted := SortAscending(values);
    assert OrderStatistic(sorted, p).value in multiset(sorted);
  }

  /** The zero percent reads the minimum, and every quantile lies between minimum and maximum. */
  lemma QuantileBounds(values: seq<real>, p: real)
    requires |values| > 0
    ensures OrderStatistic(SortAscending(values), 0.0) == Some(SortAscending(values)[0])
    ensures OrderStatistic(SortAscending(values), p).Some? ==>
      SortAscending(values)[0] <= OrderStatistic(SortAscending(values), p).value
                               <= SortAscending(values)[|values| - 1]
  {
    var sorted := SortAscending(values);
    var k := Rank(p, |sorted|);
    if 0 <= k < |sorted| {
      SortedAt(sorted, 0, k);
      SortedAt(sorted, k, |values| - 1);
    }
  }

  // ---------------------------------------------------------------------------
  // loadRathStorageFile
  // ---------------------------------------------------------------------------

  /**
   * `name.split('.').slice(-1)[0]`: the part of `name` after its last '.', or
   * the whole name when it has no '.'. The three ensures pin it down: the
   * longest suffix of `name` that holds no '.'.
   */
  function LastSegment(name: string): (seg: string)
    ensures '.' !in seg
    ensures |seg| <= |name| && seg == name[|name| - |seg|..]
    ensures |seg| < |name| ==> name[|name| - |seg| - 1] == '.'
  {
    if name == [] then []
    else if name[|name| - 1] == '.' then []
    else
      var init := name[..|name| - 1];
      var seg := LastSegment(init);
      assert init[|init| - |seg|..] + [name[|name| - 1]] == name[|name| - |seg| - 1..];
      seg + [name[|name| - 1]]
  }

  /** The outcome of the name check in loadRathStorageFile. */
  datatype StorageCheck = ReadContent | Rejected(message: string)

  /**
   * loadRathStorageFile goes on to read the file's text only when the name's last
   * '.'-separated segment is the storage suffix; otherwise it fails with a
   * message naming that segment.
   */
  function CheckRathStorageFile(name: string, storageFileSuffix: string): (r: StorageCheck)
    ensures r == ReadContent <==> LastSegment(name) == storageFileSuffix
    ensures r.Rejected? ==> r.message == "file type not supported: " + LastSegment(name)
  {
    var seg := LastSegment(name);
    if seg == storageFileSuffix then ReadContent
    else Rejected("file type not supported: " + seg)
  }

  /**
   * For a suffix without '.', a name is read exactly when it is the suffix
   * itself (a name with no '.' at all) or ends in '.' followed by the suffix.
   */
  lemma StorageNameAccepted(name: string, storageFileSuffix: string)
    requires '.' !in storageFileSuffix
    ensures CheckRathStorageFile(name, storageFileSuffix) == ReadContent <==>
      (name == storageFileSuffix ||
       (|name| > |storageFileSuffix|
        && name[|name| - |storageFileSuffix| - 1] == '.'
        && name[|name| - |storageFileSuffix|..] == storageFileSuffix))
  {
    var seg := LastSegment(name);
    var m := |storageFileSuffix|;
    if name != storageFileSuffix && |name| > m
       && name[|name| - m - 1] == '.' && name[|name| - m..] == storageFileSuffix {
      if |seg| > m {
        assert false;
      } else if |seg| < m {
        assert false;
      }
    }
  }

  /** A suffix holding a '.' can never match, so every such name is rejected. */
  lemma DottedSuffixNeverAccepted(name: string, storageFileSuffix: string)
    requires '.' in storageFileSuffix
    ensures CheckRathStorageFile(name, storageFileSuffix).Rejected?
  {
  }

  /** Any stem followed by '.' and a dot-free suffix is read back. */
  lemma StemWithSuffixAccepted(stem: string, storageFileSuffix: string)
    requires '.' !in storageFileSuffix
    ensures CheckRathStorageFile(stem + "." + storageFileSuffix, storageFileSuffix) == ReadContent
  {
    var name := stem + "." + storageFileSuffix;
    assert name[|name| - |storageFileSuffix|..] == storageFileSuffix;
    assert name[|name| - |storageFileSuffix| - 1] == '.';
    StorageNameAccepted(name, storageFileSuffix);
  }

  // ---------------------------------------------------------------------------
  // loadDataFile
  // ---------------------------------------------------------------------------

  /** The sampling choices offered for an upload. */
  datatype SampleKey = NoSampling | Reservoir

  /** The reader loadDataFile hands the file to. */
  datatype Reader = CsvReader | JsonLoader

  /** What loadDataFile does with a file: which reader, and reservoir sampling of what size. */
  datatype LoadPlan = LoadPlan(reader: Reader, reservoirSize: Option<nat>)

  datatype LoadOutcome = Load(plan: LoadPlan) | Unsupported(message: string)

  /** The `sampleSize` loadDataFile uses when the caller gives none. */
  const DefaultSampleSize: nat := 500

  /**
   * loadDataFile's dispatch on the file's MIME type: CSV and Excel-typed files go
   * to the CSV reader (sampling while reading), JSON files to the JSON loader
   * (sampling after loading); any other type fails naming the type.
   */
  function LoadDataFilePlan(fileType: string, sampleMethod: SampleKey, sampleSize: nat): (r: LoadOutcome)
    ensures r.Load? && r.plan.reader == CsvReader <==>
      fileType == "text/csv" || fileType == "application/vnd.ms-excel"
    ensures r.Load? && r.plan.reader == JsonLoader <==> fileType == "application/json"
    ensures r.Unsupported? ==> r.message == "unsupported file type=" + fileType + " "
    ensures r.Load? ==> (r.plan.reservoirSize == Some(sampleSize) <==> sampleMethod == Reservoir)
    ensures r.Load? ==> (r.plan.reservoirSize.None? <==> sampleMethod == NoSampling)
  {
    var sampling: Option<nat> := match sampleMethod
      case Reservoir => Some(sampleSize)
      case NoSampling => None;
    if fileType == "text/csv" || fileType == "application/vnd.ms-excel" then
      Load(LoadPlan(CsvReader, sampling))
    else if fileType == "application/json" then
      Load(LoadPlan(JsonLoader, sampling))
    else
      Unsupported("unsupported file type=" + fileType + " ")
  }

  /**
   * A call that leaves out `sampleSize` reservoir-samples 500 rows from a CSV,
   * Excel or JSON file when reservoir sampling is chosen.
   */
  lemma OmittedSampleSize(fileType: string)
    requires fileType in ["text/csv", "application/vnd.ms-excel", "application/json"]
    ensures LoadDataFilePlan(fileType, Reservoir, DefaultSampleSize).Load?
    ensures LoadDataFilePlan(fileType, Reservoir, DefaultSampleSize).plan.reservoirSize == Some(500)
  {
  }
}
