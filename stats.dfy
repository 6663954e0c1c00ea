/// `LogStatsCollector`: a pass-through stage of the record stream that counts
/// every record it hands on, and the distribution of three of its fields.
module Stats {
  import opened Records
  import opened Counter

  type Tallies = seq<Tally<Value>>

  /** One counter's update for one item: `if field in item:
      counter[item[field]] += 1`. */
  function Count(c: Tallies, item: Record, field: string): Tallies {
    match Lookup(item, field)
    case None => c
    case Some(v) => Increment(c, v)
  }

  /** A counter after the items of `data` have gone by, in stream order. */
  function Tallied(c: Tallies, data: seq<Record>, field: string): Tallies
    decreases |data|
  {
    if data == [] then c
    else Count(Tallied(c, data[..|data| - 1], field), data[|data| - 1], field)
  }

  /** What each item holds under `field`: `None` when it lacks the key. */
  function FieldValues(data: seq<Record>, field: string): (vs: seq<Option<Value>>)
    ensures |vs| == |data|
  {
    seq(|data|, i requires 0 <= i < |data| => Lookup(data[i], field))
  }

  lemma FieldValuesSnoc(data: seq<Record>, field: string)
    requires data != []
    ensures FieldValues(data, field)
      == FieldValues(data[..|data| - 1], field) + [Lookup(data[|data| - 1], field)]
  {
  }

  lemma TalliedSnoc(c: Tallies, data: seq<Record>, item: Record, field: string)
    ensures Tallied(c, data + [item], field) == Count(Tallied(c, data, field), item, field)
  {
    assert (data + [item])[..|data|] == data;
  }

  /** For every value, the counter holds its earlier count plus the number of
      items of `data` whose `field` is that value. */
  lemma {:induction false} CountsAreOccurrences(c: Tallies, data: seq<Record>, field: string, v: Value)
    ensures Get(Tallied(c, data, field), v) == Get(c, v) + multiset(FieldValues(data, field))[Some(v)]
    decreases |data|
  {
    if data != [] {
      var init := data[..|data| - 1];
      CountsAreOccurrences(c, init, field, v);
      FieldValuesSnoc(data, field);
      match Lookup(data[|data| - 1], field)
      case None =>
      case Some(w) => IncrementGet(Tallied(c, init, field), w, v);
    }
  }

  /** The counts add up to the earlier total plus the number of items of
      `data` that have the key `field`. */
  lemma {:induction false} TotalIsItemsWithField(c: Tallies, data: seq<Record>, field: string)
    ensures Total(Tallied(c, data, field)) == Total(c) + |data| - multiset(FieldValues(data, field))[None]
    decreases |data|
  {
    if data != [] {
      var init := data[..|data| - 1];
      TotalIsItemsWithField(c, init, field);
      FieldValuesSnoc(data, field);
      assert multiset(FieldValues(init, field))[None] <= |init| by {
        assert |multiset(FieldValues(init, field))| == |init|;
      }
    }
  }

  /** Counting `a` and then `b` is counting `a + b`: a consumer that stops
      after a prefix leaves the counters at that prefix. */
  lemma {:induction false} TalliedAppend(c: Tallies, a: seq<Record>, b: seq<Record>, field: string)
    ensures Tallied(c, a + b, field) == Tallied(Tallied(c, a, field), b, field)
    decreases |b|
  {
    if b == [] {
      assert a + b == a;
    } else {
      assert (a + b)[..|a + b| - 1] == a + b[..|b| - 1];
      TalliedAppend(c, a, b[..|b| - 1], field);
    }
  }

  /** Pulling more items never lowers a count: the counters after a prefix
      of the stream are below the counters after the whole of it. */
  lemma CountsNeverDecrease(c: Tallies, data: seq<Record>, k: nat, field: string, v: Value)
    requires k <= |data|
    ensures Get(Tallied(c, data[..k], field), v) <= Get(Tallied(c, data, field), v)
  {
    assert data == data[..k] + data[k..];
    TalliedAppend(c, data[..k], data[k..], field);
    CountsAreOccurrences(Tallied(c, data[..k], field), data[k..], field, v);
  }

  /** Counting keeps every key once with a positive count, and keys already
      counted keep their place: new keys go after them. */
  lemma {:induction false} TalliedKeepsOrder(c: Tallies, data: seq<Record>, field: string)
    requires Valid(c)
    ensures Valid(Tallied(c, data, field))
    ensures KeysOf(c) <= KeysOf(Tallied(c, data, field))
    decreases |data|
  {
    if data != [] {
      var prev := Tallied(c, data[..|data| - 1], field);
      TalliedKeepsOrder(c, data[..|data| - 1], field);
      match Lookup(data[|data| - 1], field)
      case None =>
      case Some(v) =>
        IncrementKeepsValid(prev, v);
        IncrementKeys(prev, v);
    }
  }

  /** The keys of a counter that started empty are exactly the values seen. */
  lemma KeysAreSeenValues(data: seq<Record>, field: string, v: Value)
    ensures v in KeysOf(Tallied([], data, field)) <==> Some(v) in FieldValues(data, field)
  {
    var c := Tallied([], data, field);
    CountsAreOccurrences([], data, field, v);
    TalliedKeepsOrder([], data, field);
    if v in KeysOf(c) {
      var i :| 0 <= i < |c| && KeysOf(c)[i] == v;
      GetAt(c, i);
    }
  }

  /** Three requests: two from one address, one from another. */
  function Sample(): seq<Record> {
    [[Field("ip", Some("1.1.1.1")), Field("status", Some("200")), Field("method", Some("GET"))],
     [Field("ip", Some("1.1.1.1")), Field("status", Some("404")), Field("method", Some("GET"))],
     [Field("ip", Some("2.2.2.2")), Field("status", Some("200")), Field("method", Some("POST"))]]
  }

  /** One item adds one to the count of the value it holds under `field`. */
  lemma CountGet(c: Tallies, item: Record, field: string, v: Value)
    ensures Get(Count(c, item, field), v) == Get(c, v) + (if Lookup(item, field) == Some(v) then 1 else 0)
  {
    if Lookup(item, field).Some? {
      IncrementGet(c, Lookup(item, field).value, v);
    }
  }

  /** Over three items, a value is counted once for each of them that holds
      it under `field`. */
  lemma CountsOfThree(data: seq<Record>, field: string, a: Value, b: Value, c: Value, v: Value)
    requires |data| == 3
    requires Lookup(data[0], field) == Some(a) && Lookup(data[1], field) == Some(b) && Lookup(data[2], field) == Some(c)
    ensures Get(Tallied([], data, field), v)
      == (if a == v then 1 else 0) + (if b == v then 1 else 0) + (if c == v then 1 else 0)
  {
    var t1 := Tallied([], data[..1], field);
    var t2 := Tallied([], data[..2], field);
    assert data[..1] == [] + [data[0]];
    TalliedSnoc([], [], data[0], field);
    assert data[..2] == data[..1] + [data[1]];
    TalliedSnoc([], data[..1], data[1], field);
    assert data == data[..2] + [data[2]];
    TalliedSnoc([], data[..2], data[2], field);
    CountGet([], data[0], field, v);
    CountGet(t1, data[1], field, v);
    CountGet(t2, data[2], field, v);
  }

  lemma SampleIpFields()
    ensures Lookup(Sample()[0], "ip") == Some(Some("1.1.1.1"))
    ensures Lookup(Sample()[1], "ip") == Some(Some("1.1.1.1"))
    ensures Lookup(Sample()[2], "ip") == Some(Some("2.2.2.2"))
  {
  }

  lemma SampleStatusFields()
    ensures Lookup(Sample()[0], "status") == Some(Some("200"))
    ensures Lookup(Sample()[1], "status") == Some(Some("404"))
    ensures Lookup(Sample()[2], "status") == Some(Some("200"))
  {
  }

  lemma SampleMethodFields()
    ensures Lookup(Sample()[0], "method") == Some(Some("GET"))
    ensures Lookup(Sample()[1], "method") == Some(Some("GET"))
    ensures Lookup(Sample()[2], "method") == Some(Some("POST"))
  {
  }

  /** The collector's counts for the three sample requests: addresses
      {1.1.1.1: 2, 2.2.2.2: 1}, statuses {200: 2, 404: 1}, methods
      {GET: 2, POST: 1}. */
  lemma SampleCounts()
    ensures Get(Tallied([], Sample(), "ip"), Some("1.1.1.1")) == 2
    ensures Get(Tallied([], Sample(), "ip"), Some("2.2.2.2")) == 1
    ensures Get(Tallied([], Sample(), "status"), Some("200")) == 2
    ensures Get(Tallied([], Sample(), "status"), Some("404")) == 1
    ensures Get(Tallied([], Sample(), "method"), Some("GET")) == 2
    ensures Get(Tallied([], Sample(), "method"), Some("POST")) == 1
  {
    SampleIpFields();
    SampleStatusFields();
    SampleMethodFields();
    CountsOfThree(Sample(), "ip", Some("1.1.1.1"), Some("1.1.1.1"), Some("2.2.2.2"), Some("1.1.1.1"));
    CountsOfThree(Sample(), "ip", Some("1.1.1.1"), Some("1.1.1.1"), Some("2.2.2.2"), Some("2.2.2.2"));
    CountsOfThree(Sample(), "status", Some("200"), Some("404"), Some("200"), Some("200"));
    CountsOfThree(Sample(), "status", Some("200"), Some("404"), Some("200"), Some("404"));
    CountsOfThree(Sample(), "method", Some("GET"), Some("GET"), Some("POST"), Some("GET"));
    CountsOfThree(Sample(), "method", Some("GET"), Some("GET"), Some("POST"), Some("POST"));
  }

  /** What `print_report` prints: the total, the five most frequent IPs,
      and the full status and method tables, each by descending count. */
  datatype Report = Report(totalRequests: nat, topIps: Tallies, statuses: Tallies, methods: Tallies)

  class LogStatsCollector {
    var totalRequests: nat
    var statusCodes: Tallies
    var ipAddresses: Tallies
    var methods: Tallies

    /** Every counter holds each key once with a positive count. */
    ghost predicate Valid()
      reads this
    {
      Counter.Valid(statusCodes) && Counter.Valid(ipAddresses) && Counter.Valid(methods)
    }

    constructor()
      ensures Valid()
      ensures totalRequests == 0 && statusCodes == [] && ipAddresses == [] && methods == []
    {
      totalRequests := 0;
      statusCodes := [];
      ipAddresses := [];
      methods := [];
    }

    /** The body of the `process_stream` loop for one pulled item, before
        the item is yielded. */
    method CountItem(item: Record)
      requires Valid()
      modifies this
      ensures Valid()
      ensures totalRequests == old(totalRequests) + 1
      ensures statusCodes == Count(old(statusCodes), item, "status")
      ensures ipAddresses == Count(old(ipAddresses), item, "ip")
      ensures methods == Count(old(methods), item, "method")
    {
      totalRequests := totalRequests + 1;
      match Lookup(item, "status") {
        case Some(status) =>
          IncrementKeepsValid(statusCodes, status);
          statusCodes := Increment(statusCodes, status);
        case None =>
      }
      match Lookup(item, "ip") {
        case Some(ip) =>
          IncrementKeepsValid(ipAddresses, ip);
          ipAddresses := Increment(ipAddresses, ip);
        case None =>
      }
      match Lookup(item, "method") {
        case Some(httpMethod) =>
          IncrementKeepsValid(methods, httpMethod);
          methods := Increment(methods, httpMethod);
        case None =>
      }
    }

    /** `process_stream`: every item is counted and then handed on unchanged;
        the counters cover exactly the items that went through. */
    method ProcessStream(data: seq<Record>) returns (out: seq<Record>)
      requires Valid()
      modifies this
      ensures Valid()
      ensures out == data
      ensures totalRequests == old(totalRequests) + |data|
      ensures statusCodes == Tallied(old(statusCodes), data, "status")
      ensures ipAddresses == Tallied(old(ipAddresses), data, "ip")
      ensures methods == Tallied(old(methods), data, "method")
    {
      out := [];
      for i := 0 to |data|
        invariant Valid()
        invariant out == data[..i]
        invariant totalRequests == old(totalRequests) + i
        invariant statusCodes == Tallied(old(statusCodes), data[..i], "status")
        invariant ipAddresses == Tallied(old(ipAddresses), data[..i], "ip")
        invariant methods == Tallied(old(methods), data[..i], "method")
      {
        assert data[..i + 1] == data[..i] + [data[i]];
        TalliedSnoc(old(statusCodes), data[..i], data[i], "status");
        TalliedSnoc(old(ipAddresses), data[..i], data[i], "ip");
        TalliedSnoc(old(methods), data[..i], data[i], "method");
        CountItem(data[i]);
        out := out + [data[i]];
      }
      assert data[..|data|] == data;
    }

    /** `print_report`: at most five IPs, then every status and every method,
        each listing by descending count with ties in first-counted order;
        no key is listed twice and every listed count is positive. */
    method PrintReport() returns (report: Report)
      requires Valid()
      ensures report.totalRequests == totalRequests
      ensures report.topIps == MostCommon(ipAddresses, Some(5))
      ensures report.statuses == MostCommon(statusCodes, None)
      ensures report.methods == MostCommon(methods, None)
      ensures |report.topIps| == if |ipAddresses| < 5 then |ipAddresses| else 5
      ensures |report.statuses| == |statusCodes| && |report.methods| == |methods|
      ensures Descending(report.topIps) && Descending(report.statuses) && Descending(report.methods)
      ensures multiset(report.statuses) == multiset(statusCodes)
      ensures multiset(report.methods) == multiset(methods)
      ensures Counter.Valid(report.topIps) && Counter.Valid(report.statuses) && Counter.Valid(report.methods)
    {
      MostCommonOrder(ipAddresses, Some(5));
      MostCommonOrder(statusCodes, None);
      MostCommonOrder(methods, None);
      MostCommonKeepsValid(ipAddresses, Some(5));
      MostCommonKeepsValid(statusCodes, None);
      MostCommonKeepsValid(methods, None);
      report := Report(totalRequests, MostCommon(ipAddresses, Some(5)),
                       MostCommon(statusCodes, None), MostCommon(methods, None));
    }
  }
}
