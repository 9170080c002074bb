/** The first-in first-out matching of responses to requests. */
module LatencyTracking {
  import opened Base
  import opened Events

  datatype PendingRequest = PendingRequest(sequence: nat, timestampNs: int, size: nat)

  datatype Measurement = Measurement(
    requestSequence: nat, responseSequence: nat, latencyNs: int, requestSize: nat, responseSize: nat)

  predicate IsRequest(e: PacketEvent) {
    e.kind == RawBytes && e.direction == AppToDevice
  }

  predicate IsResponse(e: PacketEvent) {
    e.kind == RawBytes && e.direction == DeviceToApp
  }

  function PendingOf(e: PacketEvent): PendingRequest {
    PendingRequest(e.sequence, e.timestampNs, |e.payload|)
  }

  function Match(request: PendingRequest, response: PacketEvent): Measurement {
    Measurement(request.sequence, response.sequence, response.timestampNs - request.timestampNs,
                request.size, |response.payload|)
  }

  function Observed(pending: seq<PendingRequest>, e: PacketEvent): (seq<PendingRequest>, Option<Measurement>) {
    if IsRequest(e) then (pending + [PendingOf(e)], None)
    else if IsResponse(e) && pending != [] then (pending[1..], Some(Match(pending[0], e)))
    else (pending, None)
  }

  class LatencyTracker {
    var pending: seq<PendingRequest>

    constructor ()
      ensures pending == []
    {
      pending := [];
    }

    method Observe(event: PacketEvent) returns (measurement: Option<Measurement>)
      modifies this
      ensures (pending, measurement) == Observed(old(pending), event)
    {
      if event.kind != RawBytes {
        return None;
      }
      if event.direction == AppToDevice {
        pending := pending + [PendingOf(event)];
        return None;
      }
      if event.direction == DeviceToApp && pending != [] {
        var request := pending[0];
        pending := pending[1..];
        return Some(Match(request, event));
      }
      return None;
    }

    method PendingCount() returns (n: nat)
      ensures n == |pending|
    {
      return |pending|;
    }

    method Clear()
      modifies this
      ensures pending == []
    {
      pending := [];
    }
  }

  // ---------- Histories since the last clear ----------

  function Queue(es: seq<PacketEvent>): seq<PendingRequest> {
    if es == [] then [] else Observed(Queue(es[..|es| - 1]), es[|es| - 1]).0
  }

  function Measurements(es: seq<PacketEvent>): seq<Measurement> {
    if es == [] then []
    else
      var n := |es| - 1;
      var m := Observed(Queue(es[..n]), es[n]).1;
      Measurements(es[..n]) + (if m.Some? then [m.value] else [])
  }

  /** The requests of the history, in order. */
  function Requests(es: seq<PacketEvent>): seq<PacketEvent> {
    if es == [] then []
    else
      var n := |es| - 1;
      Requests(es[..n]) + (if IsRequest(es[n]) then [es[n]] else [])
  }

  function Responses(es: seq<PacketEvent>): seq<PacketEvent> {
    if es == [] then []
    else
      var n := |es| - 1;
      Responses(es[..n]) + (if IsResponse(es[n]) then [es[n]] else [])
  }

  lemma HistorySnoc(es: seq<PacketEvent>, e: PacketEvent)
    ensures Queue(es + [e]) == Observed(Queue(es), e).0
    ensures var m := Observed(Queue(es), e).1;
            Measurements(es + [e]) == Measurements(es) + (if m.Some? then [m.value] else [])
    ensures Requests(es + [e]) == Requests(es) + (if IsRequest(e) then [e] else [])
    ensures Responses(es + [e]) == Responses(es) + (if IsResponse(e) then [e] else [])
  {
    hide Observed;
    assert (es + [e])[..|es|] == es;
  }

  function PendingAll(es: seq<PacketEvent>): (r: seq<PendingRequest>)
    ensures |r| == |es|
  {
    seq(|es|, i requires 0 <= i < |es| => PendingOf(es[i]))
  }

  /**
   The queue law. Requests are answered strictly in order: the queue holds exactly the requests
   after the first |measurements|, so measurements plus pending equals requests.
   */
  lemma {:induction false} QueueLaw(es: seq<PacketEvent>)
    ensures |Measurements(es)| <= |Requests(es)|
    ensures Queue(es) == PendingAll(Requests(es)[|Measurements(es)|..])
    ensures |Measurements(es)| + |Queue(es)| == |Requests(es)|
  {
    if es != [] {
      hide Queue, Measurements, Requests, Observed;
      var n := |es| - 1;
      QueueLaw(es[..n]);
      HistorySnoc(es[..n], es[n]);
      assert es == es[..n] + [es[n]];
      QueueLawStep(Queue(es[..n]), |Measurements(es[..n])|, Requests(es[..n]), es[n]);
    }
  }

  /** One observation, with `k` measurements taken and `rs` the requests so far. */
  lemma QueueLawStep(queue: seq<PendingRequest>, k: nat, rs: seq<PacketEvent>, e: PacketEvent)
    requires k <= |rs| && queue == PendingAll(rs[k..])
    ensures var (after, m) := Observed(queue, e);
            var rs', k' := if IsRequest(e) then rs + [e] else rs, if m.Some? then k + 1 else k;
            k' <= |rs'| && after == PendingAll(rs'[k'..])
  {
    if IsRequest(e) {
      assert (rs + [e])[k..] == rs[k..] + [e];
    } else if IsResponse(e) && queue != [] {
      assert rs[k..][1..] == rs[k + 1..];
    }
  }

  // ---------- Which request, which response ----------

  /** Where the i-th request of the history stands. */
  function RequestAt(es: seq<PacketEvent>, i: nat): (k: nat)
    requires i < |Requests(es)|
    ensures k < |es|
  {
    var n := |es| - 1;
    if i < |Requests(es[..n])| then RequestAt(es[..n], i) else n
  }

  /** Where the i-th measurement was taken. */
  function ResponseAt(es: seq<PacketEvent>, i: nat): (j: nat)
    requires i < |Measurements(es)|
    ensures j < |es|
  {
    var n := |es| - 1;
    if i < |Measurements(es[..n])| then ResponseAt(es[..n], i) else n
  }

  /** The event at `j` is a response, and at that moment some request is still unanswered. */
  predicate Answers(es: seq<PacketEvent>, j: nat)
    requires j < |es|
  {
    IsResponse(es[j]) && |Measurements(es[..j])| < |Requests(es[..j])|
  }

  /** The oldest request that is unanswered before the event at `j`. */
  function Oldest(es: seq<PacketEvent>, j: nat): PacketEvent
    requires j < |es| && Answers(es, j)
  {
    Requests(es[..j])[|Measurements(es[..j])|]
  }

  lemma {:induction false} HistoryGrows(es: seq<PacketEvent>, j: nat)
    requires j <= |es|
    ensures Requests(es[..j]) <= Requests(es) && Measurements(es[..j]) <= Measurements(es)
  {
    hide Observed;
    if j < |es| {
      var n := |es| - 1;
      assert es == es[..n] + [es[n]];
      HistorySnoc(es[..n], es[n]);
      HistoryGrows(es[..n], j);
      assert es[..n][..j] == es[..j];
    } else {
      assert es[..j] == es;
    }
  }

  lemma PrefixesGrow(es: seq<PacketEvent>, i: nat, j: nat)
    requires i <= j <= |es|
    ensures |Requests(es[..i])| <= |Requests(es[..j])| && |Measurements(es[..i])| <= |Measurements(es[..j])|
  {
    hide Measurements, Requests;
    HistoryGrows(es[..j], i);
    assert es[..j][..i] == es[..i];
  }

  /** A measurement is taken exactly at the events that answer, and it matches the oldest request. */
  lemma StepMeasures(es: seq<PacketEvent>, j: nat)
    requires j < |es|
    ensures Measurements(es[..j + 1]) == Measurements(es[..j])
              + (if Answers(es, j) then [Match(PendingOf(Oldest(es, j)), es[j])] else [])
  {
    var before := es[..j];
    assert es[..j + 1] == before + [es[j]];
    HistorySnoc(before, es[j]);
    QueueLaw(before);
    hide Queue, Measurements, Requests;
    var k := |Measurements(before)|;
    if k < |Requests(before)| {
      assert Requests(before)[k..][0] == Requests(before)[k];
    }
  }

  lemma AnswerMeasures(es: seq<PacketEvent>, j: nat)
    requires j < |es| && Answers(es, j)
    ensures var i := |Measurements(es[..j])|;
            i < |Measurements(es)| && Measurements(es)[i] == Match(PendingOf(Oldest(es, j)), es[j])
  {
    hide Measurements, Requests, Oldest;
    StepMeasures(es, j);
    HistoryGrows(es, j + 1);
    var i := |Measurements(es[..j])|;
    assert Measurements(es[..j + 1])[i] == Match(PendingOf(Oldest(es, j)), es[j]);
  }

  lemma {:induction false} RequestStands(es: seq<PacketEvent>, i: nat)
    requires i < |Requests(es)|
    ensures var k := RequestAt(es, i);
            es[k] == Requests(es)[i] && IsRequest(es[k]) && |Requests(es[..k])| == i
  {
    var n := |es| - 1;
    if i < |Requests(es[..n])| {
      RequestStands(es[..n], i);
      assert es[..n][..RequestAt(es[..n], i)] == es[..RequestAt(es[..n], i)];
    }
  }

  lemma {:induction false} ResponseStands(es: seq<PacketEvent>, i: nat)
    requires i < |Measurements(es)|
    ensures var j := ResponseAt(es, i);
            && Answers(es, j) && |Measurements(es[..j])| == i
            && Measurements(es)[i] == Match(PendingOf(Oldest(es, j)), es[j])
  {
    hide Observed;
    var n := |es| - 1;
    assert es[..n + 1] == es;
    StepMeasures(es, n);
    if i < |Measurements(es[..n])| {
      var j := ResponseAt(es[..n], i);
      ResponseStands(es[..n], i);
      assert es[..n][..j] == es[..j] && es[..n][j] == es[j];
    }
  }

  /**
   The i-th measurement matches the i-th request, at its place in the history, with a response that comes
   after it.
   */
  lemma MeasurementNamesRequest(es: seq<PacketEvent>, i: nat)
    requires i < |Measurements(es)|
    ensures i < |Requests(es)|
    ensures var k, j := RequestAt(es, i), ResponseAt(es, i);
            && k < j
            && es[k] == Requests(es)[i] && IsRequest(es[k]) && IsResponse(es[j])
            && Measurements(es)[i] == Match(PendingOf(es[k]), es[j])
  {
    QueueLaw(es);
    ResponseStands(es, i);
    RequestStands(es, i);
    hide Measurements, Requests;
    var k, j := RequestAt(es, i), ResponseAt(es, i);
    HistoryGrows(es, j);
    if j <= k {
      PrefixesGrow(es, j, k);
    }
  }

  /** What the i-th measurement says, in terms of the two events it was taken from. */
  lemma MeasurementFields(es: seq<PacketEvent>, i: nat)
    requires i < |Measurements(es)|
    ensures i < |Requests(es)|
    ensures var q, s, m := es[RequestAt(es, i)], es[ResponseAt(es, i)], Measurements(es)[i];
            && RequestAt(es, i) < ResponseAt(es, i)
            && q.kind == RawBytes && q.direction == AppToDevice
            && s.kind == RawBytes && s.direction == DeviceToApp
            && m.requestSequence == q.sequence && m.responseSequence == s.sequence
            && m.latencyNs == s.timestampNs - q.timestampNs
            && m.requestSize == |q.payload| && m.responseSize == |s.payload|
  {
    hide Measurements, Requests, RequestAt, ResponseAt;
    MeasurementNamesRequest(es, i);
  }

  /** The requests are exactly the raw events from the application to the device, whatever they carry. */
  lemma {:induction false} RequestsIff(es: seq<PacketEvent>, k: nat)
    requires k < |es|
    ensures es[k].kind == RawBytes && es[k].direction == AppToDevice <==>
            |Requests(es[..k])| < |Requests(es)| && RequestAt(es, |Requests(es[..k])|) == k
  {
    var n, i := |es| - 1, |Requests(es[..k])|;
    HistoryGrows(es, k);
    if k < n {
      RequestsIff(es[..n], k);
      assert es[..n][..k] == es[..k];
      HistoryGrows(es, n);
    }
  }

  /**
   An event is answered with a measurement exactly when it is a raw event from the device to the
   application and fewer requests were answered before it than made.
   */
  lemma {:induction false} MeasuredIff(es: seq<PacketEvent>, j: nat)
    requires j < |es|
    ensures es[j].kind == RawBytes && es[j].direction == DeviceToApp
            && |Measurements(es[..j])| < |Requests(es[..j])| <==>
            |Measurements(es[..j])| < |Measurements(es)| && ResponseAt(es, |Measurements(es[..j])|) == j
  {
    hide Observed, Queue;
    var n, i := |es| - 1, |Measurements(es[..j])|;
    HistoryGrows(es, j);
    if j < n {
      MeasuredIff(es[..n], j);
      assert es[..n][..j] == es[..j];
      HistoryGrows(es, n);
    } else {
      assert es[..n + 1] == es;
      StepMeasures(es, n);
    }
  }

  /** Different measurements use different responses, in order. */
  lemma {:induction false} ResponsesAreUsedOnce(es: seq<PacketEvent>, i: nat, m: nat)
    requires i < m < |Measurements(es)|
    ensures ResponseAt(es, i) < ResponseAt(es, m)
  {
    ResponseStands(es, i);
    ResponseStands(es, m);
    hide Measurements, Requests;
    var a, b := ResponseAt(es, i), ResponseAt(es, m);
    if b <= a {
      PrefixesGrow(es, b, a);
    }
  }

  /** Requests minus responses in the history from position `k` on. */
  function Surplus(es: seq<PacketEvent>, k: nat): int
    requires k <= |es|
  {
    |Requests(es[k..])| - |Responses(es[k..])|
  }

  lemma SurplusSnoc(es: seq<PacketEvent>, e: PacketEvent, k: nat)
    requires k <= |es|
    ensures Surplus(es + [e], k) == Surplus(es, k) + if IsRequest(e) then 1 else if IsResponse(e) then -1 else 0
  {
    assert (es + [e])[k..] == es[k..] + [e];
    HistorySnoc(es[k..], e);
  }

  /** The number pending is the largest surplus of requests over responses of any suffix. */
  lemma {:induction false} PendingIsMaxSurplus(es: seq<PacketEvent>)
    ensures forall k :: 0 <= k <= |es| ==> Surplus(es, k) <= |Queue(es)|
    ensures exists k :: 0 <= k <= |es| && Surplus(es, k) == |Queue(es)|
  {
    if es == [] {
      assert Surplus(es, 0) == 0;
    } else {
      var n := |es| - 1;
      var before, e := es[..n], es[n];
      assert es == before + [e];
      PendingIsMaxSurplus(before);
      HistorySnoc(before, e);
      assert es[|es|..] == [];
      assert Surplus(es, |es|) == 0;
      forall k | 0 <= k <= |es| ensures Surplus(es, k) <= |Queue(es)| {
        if k <= n {
          SurplusSnoc(before, e, k);
          assert Surplus(before, k) <= |Queue(before)|;
        }
      }
      if |Queue(es)| > 0 || IsRequest(e) {
        var k :| 0 <= k <= n && Surplus(before, k) == |Queue(before)|;
        SurplusSnoc(before, e, k);
        assert Surplus(es, k) == |Queue(es)|;
      }
    }
  }

  // ---------- Signs ----------

  predicate NonNegative(ms: seq<Measurement>) {
    forall i :: 0 <= i < |ms| ==> ms[i].latencyNs >= 0
  }

  /** Before each of the first `n` answers: the oldest unanswered request is not stamped later. */
  predicate OldestIsEarlier(es: seq<PacketEvent>, n: nat) {
    forall j :: 0 <= j < |es| && Answers(es, j) && |Measurements(es[..j])| < n ==>
      Oldest(es, j).timestampNs <= es[j].timestampNs
  }

  /**
   The first `n` latencies are non-negative exactly when no answer is stamped before the oldest request
   that is unanswered when it is observed.
   */
  lemma LatencyNonNegativeIff(es: seq<PacketEvent>, n: nat)
    requires n <= |Measurements(es)|
    ensures NonNegative(Measurements(es)[..n]) <==> OldestIsEarlier(es, n)
  {
    hide Measurements, Requests, Answers, Oldest;
    var ms := Measurements(es);
    if NonNegative(ms[..n]) {
      forall j | 0 <= j < |es| && Answers(es, j) && |Measurements(es[..j])| < n
        ensures Oldest(es, j).timestampNs <= es[j].timestampNs
      {
        AnswerMeasures(es, j);
        assert ms[..n][|Measurements(es[..j])|].latencyNs >= 0;
      }
    }
    if OldestIsEarlier(es, n) {
      forall i | 0 <= i < n ensures ms[i].latencyNs >= 0 {
        ResponseStands(es, i);
      }
    }
  }

  /** Observation times never go back. */
  predicate TimeOrdered(es: seq<PacketEvent>) {
    forall i, j :: 0 <= i <= j < |es| ==> es[i].timestampNs <= es[j].timestampNs
  }

  lemma {:induction false} RequestsAreInHistory(es: seq<PacketEvent>)
    ensures forall r :: r in Requests(es) ==> r in es && IsRequest(r)
  {
    if es != [] {
      RequestsAreInHistory(es[..|es| - 1]);
    }
  }

  /** In particular, when observation times never go back. */
  lemma LatencyNonNegative(es: seq<PacketEvent>)
    requires TimeOrdered(es)
    ensures NonNegative(Measurements(es))
  {
    hide Measurements, Requests, RequestAt, ResponseAt;
    forall i | 0 <= i < |Measurements(es)| ensures Measurements(es)[i].latencyNs >= 0 {
      MeasurementNamesRequest(es, i);
    }
  }
}
