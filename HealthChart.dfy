/** The data preparation of the trend chart (components/HealthChart.tsx): samples sorted
    oldest first, one metric projected, an `H:MM` label per sample, and six axis labels. */
module HealthChart {
  import opened Wrappers
  import opened Strings
  import opened Types

  /** The `metric` property: which field of a sample is plotted. */
  datatype ChartMetric = HeartRateMetric | HydrationMetric | FatigueMetric | OxygenMetric

  /** `item[metric]`. */
  function MetricValue(d: HealthData, m: ChartMetric): (v: int)
    ensures m == HeartRateMetric ==> v == d.heartRate
    ensures m == HydrationMetric ==> v == d.hydrationLevel
    ensures m == FatigueMetric ==> v == d.fatigueLevel
    ensures m == OxygenMetric ==> v == d.oxygenSaturation
  {
    match m
    case HeartRateMetric => d.heartRate
    case HydrationMetric => d.hydrationLevel
    case FatigueMetric => d.fatigueLevel
    case OxygenMetric => d.oxygenSaturation
  }

  predicate SortedByTimestamp(s: seq<HealthData>) {
    forall i, j :: 0 <= i < j < |s| ==> s[i].timestamp <= s[j].timestamp
  }

  /** Places `x` after every element of the sorted `s` whose timestamp is not later than its own. */
  function Insert(x: HealthData, s: seq<HealthData>): (r: seq<HealthData>)
    requires SortedByTimestamp(s)
    ensures SortedByTimestamp(r)
    ensures multiset(r) == multiset(s) + multiset{x} && |r| == |s| + 1
    ensures r[0] == x || (s != [] && r[0] == s[0])
  {
    if s == [] then [x]
    else if x.timestamp < s[0].timestamp then
      SortedCons(x, s);
      [x] + s
    else
      assert s == [s[0]] + s[1..];
      SortedTail(s);
      var rest := Insert(x, s[1..]);
      SortedCons(s[0], rest);
      [s[0]] + rest
  }

  lemma SortedTail(s: seq<HealthData>)
    requires s != [] && SortedByTimestamp(s)
    ensures SortedByTimestamp(s[1..])
  {
  }

  /** A sorted sequence stays sorted behind an element no later than its head. */
  lemma SortedCons(x: HealthData, s: seq<HealthData>)
    requires SortedByTimestamp(s)
    requires s != [] ==> x.timestamp <= s[0].timestamp
    ensures SortedByTimestamp([x] + s)
  {
    var r := [x] + s;
    forall i, j | 0 <= i < j < |r|
      ensures r[i].timestamp <= r[j].timestamp
    {
      if i == 0 {
        assert r[j] == s[j - 1];
      } else {
        assert r[i] == s[i - 1] && r[j] == s[j - 1];
      }
    }
  }

  /** `[...data].sort((a, b) => a.timestamp - b.timestamp)`: a sorted copy, oldest first; the
      input sequence itself is a value and stays as it was. */
  function SortByTimestamp(data: seq<HealthData>): (r: seq<HealthData>)
    ensures SortedByTimestamp(r)
    ensures multiset(r) == multiset(data) && |r| == |data|
  {
    if data == [] then []
    else
      var last := data[|data| - 1];
      assert data == data[..|data| - 1] + [last];
      Insert(last, SortByTimestamp(data[..|data| - 1]))
  }

  /** `sortedData.map(item => item[metric])`. */
  function Project(s: seq<HealthData>, m: ChartMetric): (r: seq<int>)
    ensures |r| == |s|
    ensures forall i :: 0 <= i < |s| ==> r[i] == MetricValue(s[i], m)
  {
    if s == [] then [] else [MetricValue(s[0], m)] + Project(s[1..], m)
  }

  /** The minutes padded with a leading '0' below 10. */
  function TwoDigitMinutes(m: Minute): (s: string)
    ensures |s| == 2 && AllDigits(s) && DigitsValue(s) == m
  {
    var s := (if m < 10 then "0" else "") + NatToString(m);
    assert DigitsValue(s) == m by {
      if m < 10 {
        assert s[..1] == "0" && s[1] == DigitChar(m);
        assert DigitsValue("") == 0;
        assert DigitsValue(s[..1]) == DigitValue('0') == 0;
        assert DigitValue(s[1]) == m;
      } else {
        assert s == NatToString(m);
        DigitsValueOfNatToString(m);
      }
    }
    s
  }

  /** `date.getHours() + ':' + (date.getMinutes() < 10 ? '0' : '') + date.getMinutes()`. */
  function Label(t: LocalTime): (s: string)
    ensures |s| == |NatToString(t.hour)| + 3
  {
    NatToString(t.hour) + ":" + TwoDigitMinutes(t.minute)
  }

  /** Reads an `H:MM` label back into a local time. */
  function ParseLabel(s: string): Option<LocalTime> {
    match FindChar(s, ':')
    case None => None
    case Some(p) =>
      var hs := s[..p];
      var ms := s[p + 1..];
      if hs != [] && AllDigits(hs) && |ms| == 2 && AllDigits(ms) && DigitsValue(hs) < 24 && DigitsValue(ms) < 60
      then Some(LocalTime(DigitsValue(hs), DigitsValue(ms)))
      else None
  }

  lemma ParseLabelParts(hs: string, ms: string)
    requires hs != [] && AllDigits(hs) && |ms| == 2 && AllDigits(ms)
    requires DigitsValue(hs) < 24 && DigitsValue(ms) < 60
    ensures ParseLabel(hs + ":" + ms) == Some(LocalTime(DigitsValue(hs), DigitsValue(ms)))
  {
    var s := hs + ":" + ms;
    assert s == hs + [':'] + ms;
    FindCharAfterDigits(hs, ':', ms);
    assert s[..|hs|] == hs;
    assert s[|hs| + 1..] == ms;
  }

  /** A label names its local time unambiguously. */
  lemma LabelRoundTrip(t: LocalTime)
    ensures ParseLabel(Label(t)) == Some(t)
  {
    DigitsValueOfNatToString(t.hour);
    ParseLabelParts(NatToString(t.hour), TwoDigitMinutes(t.minute));
  }

  /** `sortedData.map(...)` to labels, reading each timestamp in the time zone `tz`. */
  function Labels(s: seq<HealthData>, tz: TimeZone): (r: seq<string>)
    ensures |r| == |s|
    ensures forall i :: 0 <= i < |s| ==> r[i] == Label(tz(s[i].timestamp))
  {
    if s == [] then [] else [Label(tz(s[0].timestamp))] + Labels(s[1..], tz)
  }

  /** `Math.ceil(n / 6)`. */
  function LabelStep(n: nat): (k: nat)
    ensures n <= 6 * k < n + 6
  {
    (n + 5) / 6
  }

  /** The indices `i` from `from` up to `n` with `i % k === 0`; for `k` = 0 (no labels) the
      JavaScript remainder is NaN and nothing is kept. */
  function KeptIndices(n: nat, k: nat, from: nat): seq<nat>
    decreases n - from
  {
    if from >= n then []
    else (if k > 0 && from % k == 0 then [from] else []) + KeptIndices(n, k, from + 1)
  }

  /** The filter keeps exactly the multiples of `k` in `[from, n)`, in increasing order. */
  lemma {:induction false} KeptIndicesSpec(n: nat, k: nat, from: nat)
    ensures forall j :: 0 <= j < |KeptIndices(n, k, from)| ==>
      from <= KeptIndices(n, k, from)[j] < n && k > 0 && KeptIndices(n, k, from)[j] % k == 0
    ensures forall i, j :: 0 <= i < j < |KeptIndices(n, k, from)| ==>
      KeptIndices(n, k, from)[i] < KeptIndices(n, k, from)[j]
    ensures forall i :: i in KeptIndices(n, k, from) <==> from <= i < n && k > 0 && i % k == 0
    decreases n - from
  {
    if from < n {
      KeptIndicesSpec(n, k, from + 1);
      var rest := KeptIndices(n, k, from + 1);
      if k > 0 && from % k == 0 {
        assert KeptIndices(n, k, from) == [from] + rest;
      } else {
        assert KeptIndices(n, k, from) == rest;
      }
    }
  }

  lemma Distributes(a: int, b: int, k: int)
    ensures a * k - b * k == (a - b) * k
  {
  }

  lemma AtLeastOnce(d: int, k: int)
    requires d >= 1 && k > 0
    ensures d * k >= k
  {
  }

  /** The remainder is determined by any decomposition `x == q * k + r` with `0 <= r < k`. */
  lemma RemainderUnique(x: int, k: int, q: int, r: int)
    requires k > 0 && 0 <= r < k && x == q * k + r
    ensures x % k == r
  {
    var q0, r0 := x / k, x % k;
    assert x == q0 * k + r0;
    Distributes(q, q0, k);
    Distributes(q0, q, k);
    if q > q0 {
      AtLeastOnce(q - q0, k);
    } else if q < q0 {
      AtLeastOnce(q0 - q, k);
    }
  }

  lemma MultipleStep(a: nat, k: nat)
    requires k > 0 && a % k == 0
    ensures (a + k) % k == 0
  {
    assert a == (a / k) * k;
    RemainderUnique(a + k, k, a / k + 1, 0);
  }

  lemma MultipleOf(j: nat, k: nat)
    requires k > 0
    ensures (j * k) % k == 0
  {
    RemainderUnique(j * k, k, j, 0);
  }

  lemma ScaleStep(j: nat, k: nat)
    requires j > 0
    ensures (j - 1) * k + k == j * k
  {
  }

  lemma ScaleStrict(p: nat, j: nat, k: nat)
    requires p < j && k > 0
    ensures p * k < j * k
  {
  }

  /** Two distinct multiples of `k` are at least `k` apart. */
  lemma MultiplesApart(a: nat, b: nat, k: nat)
    requires k > 0 && a % k == 0 && b % k == 0 && a < b
    ensures a + k <= b
  {
    var qa, qb := a / k, b / k;
    assert a == qa * k && b == qb * k;
    assert qb >= qa + 1;
    assert qb * k >= (qa + 1) * k;
  }

  /** Positions strictly between two multiples of `k` contribute nothing. */
  lemma {:induction false} SkipNonMultiples(n: nat, k: nat, from: nat, i: nat)
    requires k > 0 && from <= i
    requires forall j :: from <= j < i ==> j % k != 0
    ensures KeptIndices(n, k, from) == KeptIndices(n, k, i)
    decreases i - from
  {
    if from < i && from < n {
      SkipNonMultiples(n, k, from + 1, i);
    }
  }

  /** From one multiple of `k` the filter jumps to the next. */
  lemma KeptStep(n: nat, k: nat, from: nat)
    requires k > 0 && from % k == 0 && from < n
    ensures KeptIndices(n, k, from) == [from] + KeptIndices(n, k, from + k)
  {
    forall j | from + 1 <= j < from + k
      ensures j % k != 0
    {
      if j % k == 0 {
        MultiplesApart(from, j, k);
      }
    }
    SkipNonMultiples(n, k, from + 1, from + k);
  }

  /** The `j`-th index kept from the multiple `from` of `k` on is `from + j * k`. */
  lemma {:induction false} KeptAt(n: nat, k: nat, from: nat, j: nat)
    requires k > 0 && from % k == 0
    requires j < |KeptIndices(n, k, from)|
    ensures KeptIndices(n, k, from)[j] == from + j * k
    decreases j
  {
    KeptStep(n, k, from);
    if j > 0 {
      MultipleStep(from, k);
      KeptAt(n, k, from + k, j - 1);
      ScaleStep(j, k);
    }
  }

  /** Index `j` of the subsample exists exactly when `j * k` is an index of the input. */
  lemma KeptCount(n: nat, k: nat, j: nat)
    requires k > 0
    ensures j < |KeptIndices(n, k, 0)| <==> j * k < n
  {
    var r := KeptIndices(n, k, 0);
    KeptIndicesSpec(n, k, 0);
    if j < |r| {
      KeptAt(n, k, 0, j);
    } else if j * k < n {
      MultipleOf(j, k);
      assert j * k in r;
      var p :| 0 <= p < |r| && r[p] == j * k;
      KeptAt(n, k, 0, p);
      ScaleStrict(p, j, k);
    }
  }

  /** At most six labels survive the filter, since six steps reach past the last sample. */
  lemma AtMostSixKept(n: nat)
    ensures |KeptIndices(n, LabelStep(n), 0)| <= 6
  {
    if n > 0 {
      KeptCount(n, LabelStep(n), 6);
    }
  }

  /** `labels.filter((_, i) => i % Math.ceil(labels.length / 6) === 0)`. */
  function Subsample(labels: seq<string>): (r: seq<string>)
    ensures |r| <= 6
    ensures |labels| > 0 ==> |r| > 0 && r[0] == labels[0]
  {
    var idx := KeptIndices(|labels|, LabelStep(|labels|), 0);
    KeptIndicesSpec(|labels|, LabelStep(|labels|), 0);
    AtMostSixKept(|labels|);
    seq(|idx|, j requires 0 <= j < |idx| => labels[idx[j]])
  }

  /** The subsample is every `k`-th label from the first, `k` being the step: its `j`-th
      element exists exactly when `j * k` is a label index, and is that label. */
  lemma SubsampleAt(labels: seq<string>, j: nat)
    ensures var k := LabelStep(|labels|);
      (j < |Subsample(labels)| <==> j * k < |labels|)
      && (j < |Subsample(labels)| ==> Subsample(labels)[j] == labels[j * k])
  {
    var k := LabelStep(|labels|);
    if |labels| > 0 {
      KeptCount(|labels|, k, j);
      if j < |Subsample(labels)| {
        KeptAt(|labels|, k, 0, j);
      }
    }
  }

  /** Of a day of hourly labels, every fourth one is shown, starting with the oldest. */
  lemma SubsampleOfDay(labels: seq<string>)
    requires |labels| == 24
    ensures |Subsample(labels)| == 6
    ensures forall j :: 0 <= j < 6 ==> Subsample(labels)[j] == labels[4 * j]
  {
    assert LabelStep(24) == 4;
    SubsampleAt(labels, 5);
    SubsampleAt(labels, 6);
    forall j | 0 <= j < 6
      ensures Subsample(labels)[j] == labels[4 * j]
    {
      SubsampleAt(labels, j);
    }
  }

  /** `displayLabels`: the subsample, padded with empty labels while it has fewer than six. */
  method DisplayLabels(labels: seq<string>) returns (displayLabels: seq<string>)
    ensures |displayLabels| == 6
    ensures displayLabels[..|Subsample(labels)|] == Subsample(labels)
    ensures forall j :: |Subsample(labels)| <= j < 6 ==> displayLabels[j] == ""
  {
    displayLabels := Subsample(labels);
    while |displayLabels| < 6
      invariant |Subsample(labels)| <= |displayLabels| <= 6
      invariant displayLabels[..|Subsample(labels)|] == Subsample(labels)
      invariant forall j :: |Subsample(labels)| <= j < |displayLabels| ==> displayLabels[j] == ""
    {
      displayLabels := displayLabels + [""];
    }
  }

  datatype ChartData = ChartData(labels: seq<string>, values: seq<int>)

  /** The `chartData` the component hands to the chart. */
  method BuildChartData(data: seq<HealthData>, metric: ChartMetric, tz: TimeZone) returns (chart: ChartData)
    ensures chart.values == Project(SortByTimestamp(data), metric) && |chart.values| == |data|
    ensures |chart.labels| == 6
    ensures data != [] ==> chart.labels[0] == Label(tz(SortByTimestamp(data)[0].timestamp))
    ensures var sub := Subsample(Labels(SortByTimestamp(data), tz));
      chart.labels[..|sub|] == sub && forall j :: |sub| <= j < 6 ==> chart.labels[j] == ""
  {
    var sortedData := SortByTimestamp(data);
    var values := Project(sortedData, metric);
    var labels := Labels(sortedData, tz);
    var displayLabels := DisplayLabels(labels);
    chart := ChartData(displayLabels, values);
  }
}
