/**
 * Client-side trace statistics: the aggregation key, the per-key bucket of
 * counters, the buffer of one flush window with its wire serialisation and
 * two-step reset, and the aggregator's span eligibility and flush rule.
 *
 * The percentile sketches (DDSketch) are reduced to the number of values
 * they have accepted; their floating-point contents are not modelled.
 */
module Stats {
  import opened Wrappers

  /** The value-equal tuple that selects a bucket. */
  datatype AggregationKey = AggregationKey(
    resource: string,
    service: string,
    operationName: string,
    spanType: string,
    httpStatusCode: int)

  /** A percentile sketch, reduced to how many durations it has accepted. */
  datatype Sketch = Sketch(count: nat)

  /** One aggregation cell; the key it belongs to is the key it is stored under. */
  datatype Bucket = Bucket(
    duration: int,
    hits: int,
    errors: int,
    topLevelHits: int,
    okSummary: Sketch,
    errorSummary: Sketch)

  /** The payload metadata a buffer is created with. */
  datatype PayloadHeader = PayloadHeader(environment: string, hostName: string, serviceName: string, version: string)

  /** One flush window: its start, its buckets, and the serialisation counter. */
  datatype Buffer = Buffer(header: PayloadHeader, start: int, buckets: map<AggregationKey, Bucket>, sequence: nat)

  /** A finished span, reduced to what the aggregator reads. */
  datatype Span = Span(
    resource: string,
    service: string,
    operationName: string,
    spanType: string,
    httpStatusCode: int,
    duration: int,
    error: bool,
    topLevel: bool,
    measured: bool)

  const EmptyBucket := Bucket(0, 0, 0, 0, Sketch(0), Sketch(0))

  function NewBuffer(header: PayloadHeader, start: int): (b: Buffer)
    ensures b.buckets == map[] && b.sequence == 0
  {
    Buffer(header, start, map[], 0)
  }

  // ---------------------------------------------------------------------------
  // Aggregation

  function KeyOf(span: Span): AggregationKey {
    AggregationKey(span.resource, span.service, span.operationName, span.spanType, span.httpStatusCode)
  }

  /** Only top-level spans and spans carrying the measured tag are aggregated. */
  predicate Eligible(span: Span) {
    span.topLevel || span.measured
  }

  /** The bucket stored under `key`, or a fresh zero bucket. */
  function BucketAt(buffer: Buffer, key: AggregationKey): Bucket {
    if key in buffer.buckets then buffer.buckets[key] else EmptyBucket
  }

  /** Folds one span's duration and flags into a bucket. */
  function Record(b: Bucket, span: Span): (r: Bucket)
    ensures r.hits == b.hits + 1
    ensures r.duration == b.duration + span.duration
    ensures r.errors == b.errors + (if span.error then 1 else 0)
    ensures r.topLevelHits == b.topLevelHits + (if span.topLevel then 1 else 0)
    ensures r.okSummary.count + r.errorSummary.count == b.okSummary.count + b.errorSummary.count + 1
  {
    if span.error then
      b.(duration := b.duration + span.duration, hits := b.hits + 1, errors := b.errors + 1,
         topLevelHits := b.topLevelHits + (if span.topLevel then 1 else 0),
         errorSummary := Sketch(b.errorSummary.count + 1))
    else
      b.(duration := b.duration + span.duration, hits := b.hits + 1,
         topLevelHits := b.topLevelHits + (if span.topLevel then 1 else 0),
         okSummary := Sketch(b.okSummary.count + 1))
  }

  /** `StatsAggregator.Add` for one span. */
  function Add(buffer: Buffer, span: Span): (r: Buffer)
    ensures r.header == buffer.header && r.start == buffer.start && r.sequence == buffer.sequence
    ensures Eligible(span) ==> r.buckets == buffer.buckets[KeyOf(span) := Record(BucketAt(buffer, KeyOf(span)), span)]
    ensures !Eligible(span) ==> r == buffer
  {
    if Eligible(span) then
      var key := KeyOf(span);
      buffer.(buckets := buffer.buckets[key := Record(BucketAt(buffer, key), span)])
    else
      buffer
  }

  /** `StatsAggregator.Add` for a batch of spans, in order. */
  function AddAll(buffer: Buffer, spans: seq<Span>): (r: Buffer)
    ensures r.header == buffer.header && r.start == buffer.start && r.sequence == buffer.sequence
    decreases |spans|
  {
    if |spans| == 0 then buffer else AddAll(Add(buffer, spans[0]), spans[1..])
  }

  // Reference counts over the spans that land in one bucket.

  /** The spans of `spans` that are aggregated under `key`, in order. */
  function Recorded(spans: seq<Span>, key: AggregationKey): (r: seq<Span>)
    ensures forall i :: 0 <= i < |r| ==> Eligible(r[i]) && KeyOf(r[i]) == key
    ensures |r| <= |spans|
    decreases |spans|
  {
    if |spans| == 0 then []
    else (if Eligible(spans[0]) && KeyOf(spans[0]) == key then [spans[0]] else []) + Recorded(spans[1..], key)
  }

  function ErrorCount(spans: seq<Span>): nat
    decreases |spans|
  {
    if |spans| == 0 then 0 else (if spans[0].error then 1 else 0) + ErrorCount(spans[1..])
  }

  function TopLevelCount(spans: seq<Span>): nat
    decreases |spans|
  {
    if |spans| == 0 then 0 else (if spans[0].topLevel then 1 else 0) + TopLevelCount(spans[1..])
  }

  function DurationSum(spans: seq<Span>): int
    decreases |spans|
  {
    if |spans| == 0 then 0 else spans[0].duration + DurationSum(spans[1..])
  }

  lemma {:induction false} CountsOfConcat(a: seq<Span>, b: seq<Span>)
    ensures ErrorCount(a + b) == ErrorCount(a) + ErrorCount(b)
    ensures TopLevelCount(a + b) == TopLevelCount(a) + TopLevelCount(b)
    ensures DurationSum(a + b) == DurationSum(a) + DurationSum(b)
    decreases |a|
  {
    if |a| == 0 {
      assert a + b == b;
    } else {
      assert (a + b)[0] == a[0];
      assert (a + b)[1..] == a[1..] + b;
      CountsOfConcat(a[1..], b);
    }
  }

  lemma ErrorCountBounded(spans: seq<Span>)
    ensures ErrorCount(spans) <= |spans|
    ensures TopLevelCount(spans) <= |spans|
  {
  }

  /** Records a sequence of spans into a bucket, in order. */
  function RecordAll(b: Bucket, spans: seq<Span>): Bucket
    decreases |spans|
  {
    if |spans| == 0 then b else RecordAll(Record(b, spans[0]), spans[1..])
  }

  /**
   * Recording spans adds one hit per span, one error per error span, one
   * top-level hit per top-level span, exactly their total duration, and one
   * sketch entry per span, in the error sketch exactly for error spans.
   */
  lemma {:induction false} RecordAllCounts(b: Bucket, spans: seq<Span>)
    ensures var r := RecordAll(b, spans);
            && r.hits == b.hits + |spans|
            && r.errors == b.errors + ErrorCount(spans)
            && r.topLevelHits == b.topLevelHits + TopLevelCount(spans)
            && r.duration == b.duration + DurationSum(spans)
            && r.errorSummary.count == b.errorSummary.count + ErrorCount(spans)
            && r.okSummary.count == b.okSummary.count + |spans| - ErrorCount(spans)
    decreases |spans|
  {
    if |spans| > 0 {
      RecordAllCounts(Record(b, spans[0]), spans[1..]);
    }
  }

  /** What one `Add` does to the bucket under `key`. */
  lemma AddStep(buffer: Buffer, span: Span, key: AggregationKey)
    ensures var hit := Eligible(span) && KeyOf(span) == key;
            && (key in Add(buffer, span).buckets <==> key in buffer.buckets || hit)
            && BucketAt(Add(buffer, span), key) == (if hit then Record(BucketAt(buffer, key), span) else BucketAt(buffer, key))
  {
  }

  /**
   * After a batch, the bucket under `key` is the old bucket with exactly the
   * spans recorded under `key` folded in, in order; it exists exactly when it
   * existed before or a span was recorded under its key.
   */
  lemma {:induction false} AddAllAccumulates(buffer: Buffer, spans: seq<Span>, key: AggregationKey)
    ensures var r := AddAll(buffer, spans);
            var rec := Recorded(spans, key);
            && (key in r.buckets <==> key in buffer.buckets || |rec| > 0)
            && BucketAt(r, key) == RecordAll(BucketAt(buffer, key), rec)
    decreases |spans|
  {
    if |spans| > 0 {
      var s := spans[0];
      AddStep(buffer, s, key);
      AddAllAccumulates(Add(buffer, s), spans[1..], key);
      var rest := Recorded(spans[1..], key);
      if Eligible(s) && KeyOf(s) == key {
        assert Recorded(spans, key) == [s] + rest;
        assert ([s] + rest)[1..] == rest;
      } else {
        assert Recorded(spans, key) == rest;
      }
    }
  }

  /** Each key of an aggregated buffer came from the starting buffer or from a recorded span. */
  lemma AddAllKeys(buffer: Buffer, spans: seq<Span>)
    ensures forall key :: key in AddAll(buffer, spans).buckets ==> key in buffer.buckets || |Recorded(spans, key)| > 0
  {
    forall key | key in AddAll(buffer, spans).buckets
      ensures key in buffer.buckets || |Recorded(spans, key)| > 0
    {
      AddAllAccumulates(buffer, spans, key);
    }
  }

  /**
   * Bucket invariants the aggregator maintains: errors never exceed hits,
   * each hit went to exactly one sketch, the error sketch counts the errors.
   */
  predicate WellFormedBucket(b: Bucket) {
    && 0 <= b.errors <= b.hits
    && 0 <= b.topLevelHits <= b.hits
    && b.okSummary.count + b.errorSummary.count == b.hits
    && b.errorSummary.count == b.errors
  }

  predicate WellFormed(buffer: Buffer) {
    forall key :: key in buffer.buckets ==> WellFormedBucket(buffer.buckets[key])
  }

  /** Recording a span keeps a bucket well formed. */
  lemma RecordWellFormed(b: Bucket, span: Span)
    requires WellFormedBucket(b)
    ensures WellFormedBucket(Record(b, span))
  {
  }

  lemma BucketAtWellFormed(buffer: Buffer, key: AggregationKey)
    requires WellFormed(buffer)
    ensures WellFormedBucket(BucketAt(buffer, key))
  {
  }

  lemma StoreWellFormed(buffer: Buffer, key: AggregationKey, b: Bucket)
    requires WellFormed(buffer) && WellFormedBucket(b)
    ensures WellFormed(buffer.(buckets := buffer.buckets[key := b]))
  {
  }

  /** Adding one span keeps every bucket well formed. */
  lemma AddWellFormed(buffer: Buffer, span: Span)
    requires WellFormed(buffer)
    ensures WellFormed(Add(buffer, span))
  {
    if Eligible(span) {
      var key := KeyOf(span);
      BucketAtWellFormed(buffer, key);
      RecordWellFormed(BucketAt(buffer, key), span);
      StoreWellFormed(buffer, key, Record(BucketAt(buffer, key), span));
    }
  }

  /** Aggregating spans keeps every bucket well formed. */
  lemma {:induction false} AddAllPreservesWellFormed(buffer: Buffer, spans: seq<Span>)
    requires WellFormed(buffer)
    ensures WellFormed(AddAll(buffer, spans))
    decreases |spans|
  {
    if |spans| > 0 {
      AddWellFormed(buffer, spans[0]);
      AddAllPreservesWellFormed(Add(buffer, spans[0]), spans[1..]);
    }
  }

  /**
   * The recorded-spans scenario: a plain span, an error span, a parent span,
   * a child span and a measured child, all with one key. The child is not
   * counted; the bucket holds 4 hits, 1 error, 3 top-level hits, the summed
   * duration of the four counted spans, 3 ok and 1 error sketch entries.
   */
  lemma RecordSpansScenario(buffer: Buffer, plain: Span, err: Span, parent: Span, child: Span, measuredChild: Span)
    requires buffer.buckets == map[]
    requires KeyOf(plain) == KeyOf(err) == KeyOf(parent) == KeyOf(child) == KeyOf(measuredChild)
    requires plain.topLevel && !plain.error
    requires err.topLevel && err.error
    requires parent.topLevel && !parent.error
    requires !child.topLevel && !child.measured
    requires !measuredChild.topLevel && measuredChild.measured && !measuredChild.error
    ensures var r := AddAll(buffer, [plain, err, parent, child, measuredChild]);
            && r.buckets.Keys == {KeyOf(plain)}
            && r.buckets[KeyOf(plain)] == Bucket(
                 plain.duration + err.duration + parent.duration + measuredChild.duration,
                 4, 1, 3, Sketch(3), Sketch(1))
  {
    var spans := [plain, err, parent, child, measuredChild];
    var key := KeyOf(plain);
    var r := AddAll(buffer, spans);
    AddAllAccumulates(buffer, spans, key);
    ScenarioRecorded(plain, err, parent, child, measuredChild);
    ScenarioCounts(plain, err, parent, measuredChild);
    RecordAllCounts(EmptyBucket, [plain, err, parent, measuredChild]);
    forall k | k in r.buckets ensures k == key {
      AddAllAccumulates(buffer, spans, k);
      if k != key {
        OnlyKeyRecorded(spans, key, k);
      }
    }
  }

  /** In the scenario only the plain child is left out. */
  lemma ScenarioRecorded(plain: Span, err: Span, parent: Span, child: Span, measuredChild: Span)
    requires KeyOf(plain) == KeyOf(err) == KeyOf(parent) == KeyOf(child) == KeyOf(measuredChild)
    requires plain.topLevel && err.topLevel && parent.topLevel
    requires !child.topLevel && !child.measured && measuredChild.measured
    ensures Recorded([plain, err, parent, child, measuredChild], KeyOf(plain)) == [plain, err, parent, measuredChild]
  {
    var key := KeyOf(plain);
    assert Recorded([measuredChild], key) == [measuredChild];
    assert [child, measuredChild][1..] == [measuredChild];
    assert Recorded([child, measuredChild], key) == [measuredChild];
    assert [parent, child, measuredChild][1..] == [child, measuredChild];
    assert Recorded([parent, child, measuredChild], key) == [parent, measuredChild];
    assert [err, parent, child, measuredChild][1..] == [parent, child, measuredChild];
    assert Recorded([err, parent, child, measuredChild], key) == [err, parent, measuredChild];
    assert [plain, err, parent, child, measuredChild][1..] == [err, parent, child, measuredChild];
  }

  /** The counts of the four recorded scenario spans. */
  lemma ScenarioCounts(plain: Span, err: Span, parent: Span, measuredChild: Span)
    requires plain.topLevel && !plain.error
    requires err.topLevel && err.error
    requires parent.topLevel && !parent.error
    requires !measuredChild.topLevel && !measuredChild.error
    ensures var rec := [plain, err, parent, measuredChild];
            && ErrorCount(rec) == 1 && TopLevelCount(rec) == 3
            && DurationSum(rec) == plain.duration + err.duration + parent.duration + measuredChild.duration
  {
    var r3 := [measuredChild];
    assert r3[1..] == [];
    assert ErrorCount(r3) == 0 && TopLevelCount(r3) == 0 && DurationSum(r3) == measuredChild.duration;
    var r2 := [parent, measuredChild];
    assert r2[1..] == r3;
    assert ErrorCount(r2) == 0 && TopLevelCount(r2) == 1 && DurationSum(r2) == parent.duration + measuredChild.duration;
    var r1 := [err, parent, measuredChild];
    assert r1[1..] == r2;
    assert ErrorCount(r1) == 1 && TopLevelCount(r1) == 2;
    assert DurationSum(r1) == err.duration + parent.duration + measuredChild.duration;
    assert [plain, err, parent, measuredChild][1..] == r1;
  }

  /**
   * Keys compare by value: two eligible spans land in one bucket exactly
   * when their five key fields agree, whatever their other fields.
   */
  lemma SameKeySharesBucket(buffer: Buffer, s1: Span, s2: Span)
    requires Eligible(s1) && Eligible(s2)
    ensures var key := KeyOf(s1);
            BucketAt(AddAll(buffer, [s1, s2]), key).hits == BucketAt(buffer, key).hits + 2
            <==> (s1.resource == s2.resource && s1.service == s2.service && s1.operationName == s2.operationName
                  && s1.spanType == s2.spanType && s1.httpStatusCode == s2.httpStatusCode)
  {
    var key := KeyOf(s1);
    var spans := [s1, s2];
    AddAllAccumulates(buffer, spans, key);
    var rec := Recorded(spans, key);
    assert spans[1..] == [s2];
    assert [s2][1..] == [];
    assert rec == [s1] + (if KeyOf(s2) == key then [s2] else []);
    RecordAllCounts(BucketAt(buffer, key), rec);
  }

  /** When every span has key `key`, nothing is recorded under any other key. */
  lemma OnlyKeyRecorded(spans: seq<Span>, key: AggregationKey, other: AggregationKey)
    requires forall i :: 0 <= i < |spans| ==> KeyOf(spans[i]) == key
    requires other != key
    ensures Recorded(spans, other) == []
  {
    if |Recorded(spans, other)| > 0 {
      RecordedFromSpans(spans, other, 0);
    }
  }

  // ---------------------------------------------------------------------------
  // Reset

  /** A kept bucket after `Reset`: every counter zero, both sketches empty. */
  function Cleared(b: Bucket): (r: Bucket)
    ensures r.hits == 0 && r.errors == 0 && r.duration == 0 && r.topLevelHits == 0
    ensures r.okSummary.count == 0 && r.errorSummary.count == 0
  {
    EmptyBucket
  }

  /**
   * `StatsBuffer.Reset`: buckets that saw hits in the window are kept for the
   * next one with every counter cleared; idle buckets are removed.
   */
  function Reset(buffer: Buffer): (r: Buffer)
    ensures r.header == buffer.header && r.start == buffer.start && r.sequence == buffer.sequence
    ensures forall key :: key in r.buckets <==> key in buffer.buckets && buffer.buckets[key].hits > 0
    ensures forall key :: key in r.buckets ==> r.buckets[key] == EmptyBucket
  {
    buffer.(buckets := map key | key in buffer.buckets && buffer.buckets[key].hits > 0 :: Cleared(buffer.buckets[key]))
  }

  /** A bucket with no hits does not survive a reset, so two resets in a row empty the buffer. */
  lemma ResetTwiceEmpties(buffer: Buffer)
    ensures Reset(Reset(buffer)).buckets == map[]
  {
    assert Reset(Reset(buffer)).buckets.Keys == {};
  }

  /** Reset leaves a well-formed buffer well formed. */
  lemma ResetWellFormed(buffer: Buffer)
    ensures WellFormed(Reset(buffer))
  {
  }

  // ---------------------------------------------------------------------------
  // Serialisation

  /** Tracer-wide values written into every payload. */
  datatype TracerInfo = TracerInfo(lang: string, tracerVersion: string, runtimeId: string)

  /** One serialised bucket ("grouped stats"). */
  datatype GroupedStats = GroupedStats(
    service: string,
    name: string,
    resource: string,
    httpStatusCode: int,
    spanType: string,
    dbType: Option<string>,
    hits: int,
    errors: int,
    duration: int,
    okSummary: Sketch,
    errorSummary: Sketch,
    synthetics: bool,
    topLevelHits: int)

  /** The single time bucket of a payload. */
  datatype TimeBucket = TimeBucket(start: int, duration: int, stats: seq<GroupedStats>, agentTimeShift: int)

  datatype Payload = Payload(
    hostname: string,
    env: string,
    version: string,
    lang: string,
    tracerVersion: string,
    runtimeId: string,
    sequence: int,
    agentAggregation: Option<string>,
    service: string,
    stats: seq<TimeBucket>)

  /** The grouped stats written for one bucket. */
  function Group(key: AggregationKey, b: Bucket): GroupedStats {
    GroupedStats(key.service, key.operationName, key.resource, key.httpStatusCode, key.spanType, None,
                 b.hits, b.errors, b.duration, b.okSummary, b.errorSummary, false, b.topLevelHits)
  }

  /** Reads the aggregation key back from a group. */
  function GroupKey(g: GroupedStats): AggregationKey {
    AggregationKey(g.resource, g.service, g.name, g.spanType, g.httpStatusCode)
  }

  /** A group records the key it was written for and every counter of its bucket unchanged. */
  lemma GroupRoundTrip(key: AggregationKey, b: Bucket)
    ensures GroupKey(Group(key, b)) == key
    ensures var g := Group(key, b);
            g.hits == b.hits && g.errors == b.errors && g.duration == b.duration && g.topLevelHits == b.topLevelHits
            && g.okSummary == b.okSummary && g.errorSummary == b.errorSummary
            && g.dbType == None && !g.synthetics
  {
  }

  /** The keys whose bucket saw at least one hit. */
  function BusyKeys(buckets: map<AggregationKey, Bucket>): set<AggregationKey> {
    set key | key in buckets && buckets[key].hits > 0
  }

  predicate Distinct<T(==)>(xs: seq<T>) {
    forall i, j :: 0 <= i < j < |xs| ==> xs[i] != xs[j]
  }

  /**
   * `groups` lists exactly the buckets with hits, one group per key: every
   * group is the serialisation of a bucket with hits, every bucket with hits
   * has its group, and no key appears twice.
   */
  predicate ExactlyTheBusyBuckets(buckets: map<AggregationKey, Bucket>, groups: seq<GroupedStats>) {
    && (forall i :: 0 <= i < |groups| ==>
          GroupKey(groups[i]) in buckets && buckets[GroupKey(groups[i])].hits > 0
          && groups[i] == Group(GroupKey(groups[i]), buckets[GroupKey(groups[i])]))
    && (forall key :: key in buckets && buckets[key].hits > 0 ==> Group(key, buckets[key]) in groups)
    && (forall i, j :: 0 <= i < j < |groups| ==> GroupKey(groups[i]) != GroupKey(groups[j]))
  }

  /** The enumeration of a bucket map: every key once, in some order. */
  method EnumerateKeys(buckets: map<AggregationKey, Bucket>) returns (keys: seq<AggregationKey>)
    ensures forall key :: key in keys <==> key in buckets
    ensures Distinct(keys)
  {
    var remaining := buckets.Keys;
    keys := [];
    while remaining != {}
      invariant remaining <= buckets.Keys
      invariant forall key :: key in keys <==> key in buckets && key !in remaining
      invariant Distinct(keys)
      decreases |remaining|
    {
      var key :| key in remaining;
      keys := keys + [key];
      remaining := remaining - {key};
    }
  }

  /** The groups written while enumerating `keys`: buckets without hits are skipped. */
  function GroupsOf(buckets: map<AggregationKey, Bucket>, keys: seq<AggregationKey>): (gs: seq<GroupedStats>)
    ensures |gs| <= |keys|
    decreases |keys|
  {
    if |keys| == 0 then []
    else if keys[0] in buckets && buckets[keys[0]].hits > 0 then [Group(keys[0], buckets[keys[0]])] + GroupsOf(buckets, keys[1..])
    else GroupsOf(buckets, keys[1..])
  }

  /** Every written group belongs to an enumerated key whose bucket has hits, and is that bucket's serialisation. */
  lemma {:induction false} GroupsOfSound(buckets: map<AggregationKey, Bucket>, keys: seq<AggregationKey>, i: nat)
    requires i < |GroupsOf(buckets, keys)|
    ensures var g := GroupsOf(buckets, keys)[i];
            GroupKey(g) in keys && GroupKey(g) in buckets && buckets[GroupKey(g)].hits > 0
            && g == Group(GroupKey(g), buckets[GroupKey(g)])
    decreases |keys|
  {
    if keys[0] in buckets && buckets[keys[0]].hits > 0 {
      GroupRoundTrip(keys[0], buckets[keys[0]]);
      if i > 0 {
        GroupsOfSound(buckets, keys[1..], i - 1);
      }
    } else {
      GroupsOfSound(buckets, keys[1..], i);
    }
  }

  /** Every enumerated key whose bucket has hits gets its group. */
  lemma {:induction false} GroupsOfComplete(buckets: map<AggregationKey, Bucket>, keys: seq<AggregationKey>, key: AggregationKey)
    requires key in keys && key in buckets && buckets[key].hits > 0
    ensures Group(key, buckets[key]) in GroupsOf(buckets, keys)
    decreases |keys|
  {
    if keys[0] != key {
      GroupsOfComplete(buckets, keys[1..], key);
    }
  }

  /** Distinct keys give groups with distinct keys. */
  lemma {:induction false} GroupsOfDistinct(buckets: map<AggregationKey, Bucket>, keys: seq<AggregationKey>)
    requires Distinct(keys)
    ensures var gs := GroupsOf(buckets, keys);
            forall i, j :: 0 <= i < j < |gs| ==> GroupKey(gs[i]) != GroupKey(gs[j])
    decreases |keys|
  {
    if |keys| > 0 {
      var rest := keys[1..];
      assert Distinct(rest);
      GroupsOfDistinct(buckets, rest);
      var gs := GroupsOf(buckets, keys);
      if keys[0] in buckets && buckets[keys[0]].hits > 0 {
        assert keys[0] !in rest;
        GroupRoundTrip(keys[0], buckets[keys[0]]);
        var restGs := GroupsOf(buckets, rest);
        assert gs == [Group(keys[0], buckets[keys[0]])] + restGs;
        forall i, j | 0 <= i < j < |gs| ensures GroupKey(gs[i]) != GroupKey(gs[j]) {
          GroupsOfSound(buckets, rest, j - 1);
          if i > 0 {
            assert gs[i] == restGs[i - 1] && gs[j] == restGs[j - 1];
          }
        }
      } else {
        assert gs == GroupsOf(buckets, rest);
      }
    }
  }

  /** With distinct keys, one group is written per enumerated busy key. */
  lemma {:induction false} GroupsOfCount(buckets: map<AggregationKey, Bucket>, keys: seq<AggregationKey>)
    requires Distinct(keys)
    ensures |GroupsOf(buckets, keys)| == |set key | key in keys && key in buckets && buckets[key].hits > 0|
    decreases |keys|
  {
    if |keys| > 0 {
      var rest := keys[1..];
      assert Distinct(rest);
      GroupsOfCount(buckets, rest);
      var busyRest := set key | key in rest && key in buckets && buckets[key].hits > 0;
      var busy := set key | key in keys && key in buckets && buckets[key].hits > 0;
      if keys[0] in buckets && buckets[keys[0]].hits > 0 {
        assert keys[0] !in rest;
        assert busy == {keys[0]} + busyRest;
      } else {
        assert busy == busyRest;
      }
    }
  }

  /** Enumerating every key of the map writes exactly the busy buckets. */
  lemma GroupsOfAllKeys(buckets: map<AggregationKey, Bucket>, keys: seq<AggregationKey>)
    requires forall key :: key in keys <==> key in buckets
    requires Distinct(keys)
    ensures ExactlyTheBusyBuckets(buckets, GroupsOf(buckets, keys))
    ensures |GroupsOf(buckets, keys)| == |BusyKeys(buckets)|
  {
    var gs := GroupsOf(buckets, keys);
    forall i | 0 <= i < |gs|
      ensures GroupKey(gs[i]) in buckets && buckets[GroupKey(gs[i])].hits > 0
              && gs[i] == Group(GroupKey(gs[i]), buckets[GroupKey(gs[i])])
    {
      GroupsOfSound(buckets, keys, i);
    }
    forall key | key in buckets && buckets[key].hits > 0 ensures Group(key, buckets[key]) in gs {
      GroupsOfComplete(buckets, keys, key);
    }
    GroupsOfDistinct(buckets, keys);
    GroupsOfCount(buckets, keys);
    assert (set key | key in keys && key in buckets && buckets[key].hits > 0) == BusyKeys(buckets);
  }

  /**
   * `StatsBuffer.Serialize`: the payload header, the incremented sequence
   * number, and one time bucket holding a group for every bucket with hits,
   * in the buffer's (unspecified) enumeration order.
   */
  method Serialize(buffer: Buffer, bucketDuration: int, info: TracerInfo) returns (p: Payload, next: Buffer)
    ensures next == buffer.(sequence := buffer.sequence + 1)
    ensures p.hostname == buffer.header.hostName && p.env == buffer.header.environment
    ensures p.version == buffer.header.version && p.service == buffer.header.serviceName
    ensures p.lang == info.lang && p.tracerVersion == info.tracerVersion && p.runtimeId == info.runtimeId
    ensures p.sequence == buffer.sequence + 1 && p.agentAggregation == None
    ensures |p.stats| == 1
    ensures p.stats[0].start == buffer.start && p.stats[0].duration == bucketDuration && p.stats[0].agentTimeShift == 0
    ensures ExactlyTheBusyBuckets(buffer.buckets, p.stats[0].stats)
    ensures |p.stats[0].stats| == |BusyKeys(buffer.buckets)|
  {
    var keys := EnumerateKeys(buffer.buckets);
    var groups := GroupsOf(buffer.buckets, keys);
    GroupsOfAllKeys(buffer.buckets, keys);
    next := buffer.(sequence := buffer.sequence + 1);
    var header := buffer.header;
    p := Payload(header.hostName, header.environment, header.version, info.lang, info.tracerVersion, info.runtimeId,
                 next.sequence, None, header.serviceName, [TimeBucket(buffer.start, bucketDuration, groups, 0)]);
  }

  /** The serialisation scenario: a fresh buffer serialises with sequence 1 and drops its idle bucket. */
  method SerializeFreshBuffer(header: PayloadHeader, start: int, info: TracerInfo,
                              k1: AggregationKey, b1: Bucket, k2: AggregationKey, b2: Bucket, k3: AggregationKey, b3: Bucket)
    returns (p: Payload)
    requires k1 != k2 && k1 != k3 && k2 != k3
    requires b1.hits > 0 && b2.hits > 0 && b3.hits == 0
    ensures p.sequence == 1
    ensures |p.stats| == 1 && |p.stats[0].stats| == 2
    ensures Group(k1, b1) in p.stats[0].stats && Group(k2, b2) in p.stats[0].stats
  {
    var buffer := NewBuffer(header, start).(buckets := map[k1 := b1, k2 := b2, k3 := b3]);
    var next;
    p, next := Serialize(buffer, 42, info);
    BusyKeysOfThree(k1, b1, k2, b2, k3, b3);
    assert buffer.buckets[k1] == b1 && buffer.buckets[k2] == b2;
  }

  lemma BusyKeysOfThree(k1: AggregationKey, b1: Bucket, k2: AggregationKey, b2: Bucket, k3: AggregationKey, b3: Bucket)
    requires k1 != k2 && k1 != k3 && k2 != k3
    requires b1.hits > 0 && b2.hits > 0 && b3.hits == 0
    ensures |BusyKeys(map[k1 := b1, k2 := b2, k3 := b3])| == 2
  {
    var m := map[k1 := b1, k2 := b2, k3 := b3];
    assert m[k1] == b1 && m[k2] == b2 && m[k3] == b3;
    assert BusyKeys(m) == {k1, k2};
  }

  // ---------------------------------------------------------------------------
  // Aggregator flush

  /** What one `StatsAggregator.Flush` did. */
  datatype FlushOutcome = Canceled | NothingToSend | Sent(buffer: Buffer)

  predicate HasHits(buffer: Buffer) {
    exists key :: key in buffer.buckets && buffer.buckets[key].hits > 0
  }

  /**
   * `StatsAggregator.Flush`: an already-cancelled token fails before any
   * work; a window without hits sends nothing; otherwise the window's buffer
   * is handed to `SendStatsAsync` and reset for the next window.
   */
  function Flush(current: Buffer, canceled: bool): (r: (FlushOutcome, Buffer))
    ensures canceled ==> r == (Canceled, current)
    ensures r.0.Sent? <==> !canceled && HasHits(current)
    ensures r.0.Sent? ==> r.0.buffer == current && r.1 == Reset(current)
    ensures !r.0.Sent? ==> r.1 == current
  {
    if canceled then (Canceled, current)
    else if !HasHits(current) then (NothingToSend, current)
    else (Sent(current), Reset(current))
  }

  /** A cancelled flush never reaches `SendStatsAsync`, whatever the buffer holds. */
  lemma CanceledFlushNeverSends(current: Buffer)
    ensures !Flush(current, true).0.Sent?
  {
  }

  /** Spans that are neither top-level nor measured never make a fresh buffer flushable. */
  lemma {:induction false} NoSendWithoutEligibleSpans(header: PayloadHeader, start: int, spans: seq<Span>, canceled: bool)
    requires forall i :: 0 <= i < |spans| ==> !Eligible(spans[i])
    ensures !Flush(AddAll(NewBuffer(header, start), spans), canceled).0.Sent?
  {
    var r := AddAll(NewBuffer(header, start), spans);
    forall key | key in r.buckets ensures false {
      AddAllAccumulates(NewBuffer(header, start), spans, key);
      var rec := Recorded(spans, key);
      if |rec| > 0 {
        RecordedFromSpans(spans, key, 0);
      }
    }
  }

  /** Every recorded span is one of the input spans. */
  lemma {:induction false} RecordedFromSpans(spans: seq<Span>, key: AggregationKey, i: nat)
    requires i < |Recorded(spans, key)|
    ensures Recorded(spans, key)[i] in spans
    decreases |spans|
  {
    var head := if Eligible(spans[0]) && KeyOf(spans[0]) == key then [spans[0]] else [];
    if i >= |head| {
      RecordedFromSpans(spans[1..], key, i - |head|);
    }
  }
}
