/** The throughput benchmark: `concurrency` workers each issue their share of
    service-create calls one after another and send each call's latency on a
    shared channel; a single consumer appends every latency it receives,
    counts it and prints a progress line.

    The workers run here one after another; the order in which their sends
    reach the consumer is an input, a schedule naming the sending worker of
    each arrival.  Each create call (client construction included) is
    answered by a CallReply carrying the latency it measured. */
module ServiceCreateBench {
  import opened ProgressReport
  import opened Outcomes

  /** The conditions on which the source panics. */
  datatype Failure =
    | ChannelSizeOutOfRange
    | DivideByZero
    | CreateFailed(worker: nat, unit: nat)

  /** The answer to one unit of work: a latency, or a failed client or create call. */
  datatype CallReply = Acked(latency: nat) | CallFailed

  /** What one worker is started with: its image and its number of units. */
  datatype Assignment = Assignment(image: string, units: int)

  /** What a completed run collected: the latencies in arrival order and the progress lines. */
  datatype Report = Report(timings: seq<nat>, progress: seq<Line>)

  // ---------------------------------------------------------------------
  // Partition of the requests over the workers

  /** Worker i gets images[i mod |images|] and requests / concurrency units. */
  function Partition(requests: nat, concurrency: nat, images: seq<string>): (a: seq<Assignment>)
    requires concurrency >= 1 && images != []
    ensures |a| == concurrency
    ensures Uniform(a, requests / concurrency)
    ensures forall i :: 0 <= i < |a| ==> a[i].image in images
  {
    seq(concurrency, i requires 0 <= i < concurrency => Assignment(images[i % |images|], requests / concurrency))
  }

  /** The units of all assignments together. */
  function TotalUnits(a: seq<Assignment>): (t: int)
  {
    if a == [] then 0 else TotalUnits(a[..|a| - 1]) + a[|a| - 1].units
  }

  /** The number of workers started with `image`. */
  function WorkersOn(a: seq<Assignment>, image: string): (n: nat)
  {
    if a == [] then 0 else WorkersOn(a[..|a| - 1], image) + (if a[|a| - 1].image == image then 1 else 0)
  }

  /** The number of create calls issued with `image` when every worker completes. */
  function CreatesOn(a: seq<Assignment>, image: string): (n: int)
  {
    if a == [] then 0 else CreatesOn(a[..|a| - 1], image) + (if a[|a| - 1].image == image then a[|a| - 1].units else 0)
  }

  predicate Uniform(a: seq<Assignment>, u: int)
  {
    forall i :: 0 <= i < |a| ==> a[i].units == u
  }

  predicate Distinct(images: seq<string>)
  {
    forall i, j :: 0 <= i < j < |images| ==> images[i] != images[j]
  }

  lemma {:induction false} UniformTotals(a: seq<Assignment>, u: int, image: string)
    requires Uniform(a, u)
    ensures TotalUnits(a) == |a| * u
    ensures CreatesOn(a, image) == WorkersOn(a, image) * u
  {
    if a != [] {
      UniformTotals(a[..|a| - 1], u, image);
    }
  }

  /** Each worker gets requests / concurrency units, so concurrency * (requests /
      concurrency) units are issued in all: never more than requests (the
      capacity of the channel), and fewer by the remainder of the division. */
  lemma PartitionTotal(requests: nat, concurrency: nat, images: seq<string>)
    requires concurrency >= 1 && images != []
    ensures TotalUnits(Partition(requests, concurrency, images)) == concurrency * (requests / concurrency)
    ensures concurrency * (requests / concurrency) == requests - requests % concurrency
    ensures requests - concurrency < concurrency * (requests / concurrency) <= requests
  {
    UniformTotals(Partition(requests, concurrency, images), requests / concurrency, images[0]);
  }

  /** Ten requests over three workers issue nine creates, not ten. */
  lemma RemainderDropped(images: seq<string>)
    requires images != []
    ensures TotalUnits(Partition(10, 3, images)) == 9
  {
    PartitionTotal(10, 3, images);
  }

  lemma MulAtLeast(m: nat, d: nat)
    requires d >= 1
    ensures m * d >= m
  {
  }

  /** Quotient and remainder are determined by x = m * q + r with 0 <= r < m. */
  lemma DivModUnique(x: nat, m: nat, q: int, r: int)
    requires m >= 1 && 0 <= r < m && x == m * q + r
    ensures x / m == q && x % m == r
  {
    var q', r' := x / m, x % m;
    assert m * q' + r' == x;
    if q > q' {
      assert m * (q - q') == r' - r;
      MulAtLeast(m, q - q');
    } else if q < q' {
      assert m * (q' - q) == r - r';
      MulAtLeast(m, q' - q);
    }
  }

  /** Stepping from c to c + 1 in round robin over m slots. */
  lemma RoundRobinStep(c: nat, m: nat)
    requires m >= 1
    ensures c % m == m - 1 ==> (c + 1) / m == c / m + 1 && (c + 1) % m == 0
    ensures c % m < m - 1 ==> (c + 1) / m == c / m && (c + 1) % m == c % m + 1
  {
    var q, r := c / m, c % m;
    assert c == m * q + r;
    if r == m - 1 {
      DivModUnique(c + 1, m, q + 1, 0);
    } else {
      DivModUnique(c + 1, m, q, r + 1);
    }
  }

  /** The number of workers i < c that round robin over m slots puts in slot k. */
  function SlotCount(c: nat, m: nat, k: nat): (n: nat)
    requires m >= 1
  {
    if c == 0 then 0 else SlotCount(c - 1, m, k) + (if (c - 1) % m == k then 1 else 0)
  }

  /** Round robin keeps the slots balanced: slot k gets c / m of the first c
      workers, plus one when k is below c mod m. */
  lemma {:induction false} SlotCountBalanced(c: nat, m: nat, k: nat)
    requires k < m
    ensures SlotCount(c, m, k) == c / m + (if k < c % m then 1 else 0)
  {
    if c > 0 {
      SlotCountBalanced(c - 1, m, k);
      RoundRobinCount(c, m, k);
    }
  }

  /** The round-robin count of slot k grows by one exactly at the workers c with c mod m == k. */
  lemma RoundRobinCount(c: nat, m: nat, k: nat)
    requires c >= 1 && k < m
    ensures c / m + (if k < c % m then 1 else 0) ==
      (c - 1) / m + (if k < (c - 1) % m then 1 else 0) + (if (c - 1) % m == k then 1 else 0)
  {
    RoundRobinStep(c - 1, m);
  }

  /** With distinct images, the first c workers use images[k] as often as round robin puts them in slot k. */
  lemma {:induction false} RoundRobinPrefix(a: seq<Assignment>, images: seq<string>, c: nat, k: nat)
    requires Distinct(images) && k < |images|
    requires c <= |a|
    requires forall i :: 0 <= i < |a| ==> a[i].image == images[i % |images|]
    ensures WorkersOn(a[..c], images[k]) == SlotCount(c, |images|, k)
  {
    if c > 0 {
      RoundRobinPrefix(a, images, c - 1, k);
      WorkersOnStep(a, images, c - 1, k);
    }
  }

  /** Worker c uses image slot k exactly when c mod m == k. */
  lemma WorkersOnStep(a: seq<Assignment>, images: seq<string>, c: nat, k: nat)
    requires Distinct(images) && k < |images|
    requires c < |a|
    requires forall i :: 0 <= i < |a| ==> a[i].image == images[i % |images|]
    ensures WorkersOn(a[..c + 1], images[k]) == WorkersOn(a[..c], images[k]) + (if c % |images| == k then 1 else 0)
  {
    assert a[..c + 1][..c] == a[..c];
    assert a[..c + 1][c].image == images[c % |images|];
  }

  /** With distinct images, image k is given to concurrency / m workers (one
      more when k < concurrency mod m), each issuing requests / concurrency creates. */
  lemma RoundRobinShares(requests: nat, concurrency: nat, images: seq<string>, k: nat)
    requires concurrency >= 1 && Distinct(images) && k < |images|
    ensures var a := Partition(requests, concurrency, images);
      WorkersOn(a, images[k]) == concurrency / |images| + (if k < concurrency % |images| then 1 else 0) &&
      CreatesOn(a, images[k]) == WorkersOn(a, images[k]) * (requests / concurrency)
  {
    var a := Partition(requests, concurrency, images);
    RoundRobinPrefix(a, images, concurrency, k);
    SlotCountBalanced(concurrency, |images|, k);
    assert a[..concurrency] == a;
    UniformTotals(a, requests / concurrency, images[k]);
  }

  /** Four workers over two images: each image gets two workers and
      2 * (requests / 4) create calls. */
  lemma FourWorkersTwoImages(requests: nat, images: seq<string>)
    requires |images| == 2 && images[0] != images[1]
    ensures var a := Partition(requests, 4, images);
      WorkersOn(a, images[0]) == 2 && WorkersOn(a, images[1]) == 2 &&
      CreatesOn(a, images[0]) == 2 * (requests / 4) && CreatesOn(a, images[1]) == 2 * (requests / 4)
  {
    RoundRobinShares(requests, 4, images, 0);
    RoundRobinShares(requests, 4, images, 1);
  }

  /** Starts the workers: fails on a zero concurrency (division) and on an
      empty image list (modulo) as soon as the first worker is set up. */
  method Session(requests: nat, concurrency: int, images: seq<string>) returns (r: Result<seq<Assignment>, Failure>)
    ensures concurrency == 0 ==> r == Err(DivideByZero)
    ensures concurrency > 0 && images == [] ==> r == Err(DivideByZero)
    ensures concurrency < 0 ==> r == Ok([])
    ensures concurrency > 0 && images != [] ==> r == Ok(Partition(requests, concurrency, images))
  {
    if concurrency == 0 {
      return Err(DivideByZero);
    }
    var size := |images|;
    // For a negative concurrency the quotient is never used, so the
    // difference between truncating and Euclidean division does not show.
    var n := requests / concurrency;
    var work: seq<Assignment> := [];
    var i := 0;
    while i < concurrency
      invariant 0 <= i <= if concurrency < 0 then 0 else concurrency
      invariant |work| == i
      invariant i > 0 ==> size > 0
      invariant forall j :: 0 <= j < i ==> size > 0 && work[j] == Assignment(images[j % size], n)
    {
      if size == 0 {
        return Err(DivideByZero);
      }
      work := work + [Assignment(images[i % size], n)];
      i := i + 1;
    }
    if concurrency > 0 && images != [] {
      assert work == Partition(requests, concurrency, images);
    }
    r := Ok(work);
  }

  // ---------------------------------------------------------------------
  // One worker

  /** Issues `units` create calls one after another and emits each call's
      latency; the first failed call aborts before emitting anything for it. */
  method Worker(units: int, calls: seq<CallReply>) returns (emitted: seq<nat>, failedAt: Option<nat>)
    requires units <= |calls|
    ensures |emitted| <= |calls|
    ensures forall j :: 0 <= j < |emitted| ==> calls[j] == Acked(emitted[j])
    ensures failedAt.None? ==> |emitted| == if units < 0 then 0 else units
    ensures failedAt.Some? ==> |emitted| == failedAt.value < units && calls[failedAt.value] == CallFailed
  {
    emitted := [];
    var i := 0;
    while i < units
      invariant 0 <= i <= if units < 0 then 0 else units
      invariant |emitted| == i
      invariant forall j :: 0 <= j < i ==> calls[j] == Acked(emitted[j])
    {
      if calls[i].CallFailed? {
        return emitted, Some(i);
      }
      emitted := emitted + [calls[i].latency];
      i := i + 1;
    }
    failedAt := None;
  }

  // ---------------------------------------------------------------------
  // The channel: per-sender order is kept, senders interleave freely

  /** How many entries of s name worker w. */
  function Occurrences(s: seq<nat>, w: nat): (n: nat)
  {
    if s == [] then 0 else Occurrences(s[..|s| - 1], w) + (if s[|s| - 1] == w then 1 else 0)
  }

  lemma {:induction false} OccurrencesPrefix(s: seq<nat>, m: nat, w: nat)
    requires m <= |s|
    ensures Occurrences(s[..m], w) <= Occurrences(s, w)
    decreases |s| - m
  {
    if m < |s| {
      var p := s[..|s| - 1];
      assert p[..m] == s[..m];
      OccurrencesPrefix(p, m, w);
    } else {
      assert s[..m] == s;
    }
  }

  /** Arrival k is the Rank(k)-th send of its worker. */
  function Rank(schedule: seq<nat>, k: nat): (r: nat)
    requires k < |schedule|
    ensures r < Occurrences(schedule, schedule[k])
  {
    assert schedule[..k + 1][..k] == schedule[..k];
    OccurrencesPrefix(schedule, k + 1, schedule[k]);
    Occurrences(schedule[..k], schedule[k])
  }

  /** The schedule names only existing workers and each as often as it sends. */
  predicate Interleaves(schedule: seq<nat>, emissions: seq<seq<nat>>)
  {
    (forall k :: 0 <= k < |schedule| ==> schedule[k] < |emissions|) &&
    (forall w :: 0 <= w < |emissions| ==> Occurrences(schedule, w) == |emissions[w]|)
  }

  /** What the consumer receives: arrival k is the next unreceived send of worker schedule[k]. */
  function Arrivals(emissions: seq<seq<nat>>, schedule: seq<nat>): (stream: seq<nat>)
    requires Interleaves(schedule, emissions)
    ensures |stream| == |schedule| == TotalLength(emissions)
    ensures forall k :: 0 <= k < |stream| ==> stream[k] in emissions[schedule[k]]
  {
    ScheduleLength(schedule, emissions);
    seq(|schedule|, k requires 0 <= k < |schedule| => emissions[schedule[k]][Rank(schedule, k)])
  }

  /** Every send of every worker arrives ... */
  lemma {:induction false} EverySendArrives(schedule: seq<nat>, w: nat, j: nat)
    requires j < Occurrences(schedule, w)
    ensures exists k :: 0 <= k < |schedule| && schedule[k] == w && Rank(schedule, k) == j
  {
    var p := schedule[..|schedule| - 1];
    if j < Occurrences(p, w) {
      EverySendArrives(p, w, j);
      var k :| 0 <= k < |p| && p[k] == w && Rank(p, k) == j;
      assert schedule[..k] == p[..k];
      assert schedule[k] == w && Rank(schedule, k) == j;
    } else {
      assert schedule[..|p|] == p;
      assert schedule[|p|] == w && Rank(schedule, |p|) == j;
    }
  }

  /** ... and no send arrives twice: two arrivals from one worker have different ranks. */
  lemma ArrivalsDistinct(schedule: seq<nat>, k1: nat, k2: nat)
    requires k1 < k2 < |schedule| && schedule[k1] == schedule[k2]
    ensures Rank(schedule, k1) < Rank(schedule, k2)
  {
    var w := schedule[k1];
    var s2 := schedule[..k2];
    assert s2[..k1 + 1] == schedule[..k1 + 1];
    assert schedule[..k1 + 1][..k1] == schedule[..k1];
    OccurrencesPrefix(s2, k1 + 1, w);
  }

  /** Exactly-once delivery: send j of worker w is received at one and only
      one arrival index, and what is received there is that send. */
  lemma ArrivesExactlyOnce(emissions: seq<seq<nat>>, schedule: seq<nat>, w: nat, j: nat)
    requires Interleaves(schedule, emissions)
    requires w < |emissions| && j < |emissions[w]|
    ensures exists k ::
      0 <= k < |schedule| && schedule[k] == w && Rank(schedule, k) == j &&
      Arrivals(emissions, schedule)[k] == emissions[w][j]
    ensures forall k1, k2 ::
      (0 <= k1 < |schedule| && 0 <= k2 < |schedule| && schedule[k1] == w && schedule[k2] == w &&
       Rank(schedule, k1) == j && Rank(schedule, k2) == j) ==> k1 == k2
  {
    EverySendArrives(schedule, w, j);
    var k :| 0 <= k < |schedule| && schedule[k] == w && Rank(schedule, k) == j;
    assert Arrivals(emissions, schedule)[k] == emissions[w][j];
    forall k1, k2 | 0 <= k1 < |schedule| && 0 <= k2 < |schedule| &&
      schedule[k1] == w && Rank(schedule, k1) == j && schedule[k2] == w && Rank(schedule, k2) == j
      ensures k1 == k2
    {
      if k1 < k2 {
        ArrivalsDistinct(schedule, k1, k2);
      } else if k2 < k1 {
        ArrivalsDistinct(schedule, k2, k1);
      }
    }
  }

  /** The sum of the lengths of all workers' emissions. */
  function TotalLength(emissions: seq<seq<nat>>): (n: nat)
  {
    if emissions == [] then 0 else TotalLength(emissions[..|emissions| - 1]) + |emissions[|emissions| - 1]|
  }

  /** Sum over workers w < count of Occurrences(s, w). */
  function OccurrencesBelow(s: seq<nat>, count: nat): (n: nat)
  {
    if count == 0 then 0 else OccurrencesBelow(s, count - 1) + Occurrences(s, count - 1)
  }

  lemma {:induction false} OccurrencesBelowSnoc(s: seq<nat>, x: nat, count: nat)
    ensures OccurrencesBelow(s + [x], count) == OccurrencesBelow(s, count) + (if x < count then 1 else 0)
  {
    assert (s + [x])[..|s|] == s;
    if count > 0 {
      OccurrencesBelowSnoc(s, x, count - 1);
    }
  }

  lemma {:induction false} OccurrencesBelowAll(s: seq<nat>, count: nat)
    requires forall k :: 0 <= k < |s| ==> s[k] < count
    ensures OccurrencesBelow(s, count) == |s|
  {
    if s != [] {
      var p := s[..|s| - 1];
      OccurrencesBelowAll(p, count);
      OccurrencesBelowSnoc(p, s[|s| - 1], count);
      assert p + [s[|s| - 1]] == s;
    } else {
      OccurrencesBelowEmpty(count);
    }
  }

  lemma {:induction false} OccurrencesBelowEmpty(count: nat)
    ensures OccurrencesBelow([], count) == 0
  {
    if count > 0 {
      OccurrencesBelowEmpty(count - 1);
    }
  }

  lemma {:induction false} TotalLengthIsOccurrences(schedule: seq<nat>, emissions: seq<seq<nat>>, count: nat)
    requires count <= |emissions|
    requires forall w :: 0 <= w < count ==> Occurrences(schedule, w) == |emissions[w]|
    ensures TotalLength(emissions[..count]) == OccurrencesBelow(schedule, count)
  {
    if count > 0 {
      assert emissions[..count][..count - 1] == emissions[..count - 1];
      TotalLengthIsOccurrences(schedule, emissions, count - 1);
    }
  }

  /** Nothing is lost or invented: a schedule that interleaves the workers'
      sends has exactly as many entries as they sent together. */
  lemma ScheduleLength(schedule: seq<nat>, emissions: seq<seq<nat>>)
    requires Interleaves(schedule, emissions)
    ensures |schedule| == TotalLength(emissions)
  {
    TotalLengthIsOccurrences(schedule, emissions, |emissions|);
    assert emissions[..|emissions|] == emissions;
    OccurrencesBelowAll(schedule, |emissions|);
  }

  lemma {:induction false} TotalLengthUniform(emissions: seq<seq<nat>>, u: nat)
    requires forall w :: 0 <= w < |emissions| ==> |emissions[w]| == u
    ensures TotalLength(emissions) == |emissions| * u
  {
    if emissions != [] {
      TotalLengthUniform(emissions[..|emissions| - 1], u);
    }
  }

  // ---------------------------------------------------------------------
  // The consumer

  /** The consumer loop: appends every received latency, increments the
      counter once per item and prints one progress line against `requests`. */
  method Consume(requests: int, stream: seq<nat>) returns (timings: seq<nat>, current: int, progress: seq<Line>)
    ensures timings == stream
    ensures current == |stream|
    ensures progress == Lines(|stream|, requests)
  {
    timings, current, progress := [], 0, [];
    var k := 0;
    while k < |stream|
      invariant k <= |stream|
      invariant timings == stream[..k]
      invariant current == k
      invariant progress == Lines(current, requests)
    {
      var timing := stream[k];
      timings := timings + [timing];
      current := current + 1;
      progress := progress + [Line(current, requests)];
      k := k + 1;
    }
  }

  // ---------------------------------------------------------------------
  // The whole run

  /** The answers and the schedule cover every call the workers may make. */
  predicate Supplied(requests: nat, concurrency: nat, calls: seq<seq<CallReply>>, schedule: seq<nat>)
    requires concurrency >= 1
  {
    |calls| >= concurrency &&
    (forall w :: 0 <= w < concurrency ==> |calls[w]| >= requests / concurrency) &&
    (forall k :: 0 <= k < |schedule| ==> schedule[k] < concurrency) &&
    (forall w :: 0 <= w < concurrency ==> Occurrences(schedule, w) == requests / concurrency)
  }

  /** Every unit of every worker is acknowledged. */
  predicate AllAcked(requests: nat, concurrency: nat, calls: seq<seq<CallReply>>)
    requires concurrency >= 1 && |calls| >= concurrency
    requires forall w :: 0 <= w < concurrency ==> |calls[w]| >= requests / concurrency
  {
    forall w, j :: 0 <= w < concurrency && 0 <= j < requests / concurrency ==> calls[w][j].Acked?
  }

  /** The throughput benchmark: allocate the channel, start the workers,
      and collect every latency they send, in arrival order. */
  method Bench(requests: int, concurrency: int, images: seq<string>, calls: seq<seq<CallReply>>, schedule: seq<nat>)
    returns (r: Result<Report, Failure>)
    requires requests >= 0 && concurrency >= 1 ==> Supplied(requests, concurrency, calls, schedule)
    ensures requests < 0 ==> r == Err(ChannelSizeOutOfRange)
    ensures requests >= 0 && concurrency == 0 ==> r == Err(DivideByZero)
    ensures requests >= 0 && concurrency > 0 && images == [] ==> r == Err(DivideByZero)
    ensures requests >= 0 && concurrency < 0 ==> r == Ok(Report([], []))
    ensures requests >= 0 && concurrency > 0 && images != [] ==>
      (r.Ok? <==> AllAcked(requests, concurrency, calls))
    ensures requests >= 0 && concurrency > 0 && images != [] && r.Err? ==> r.failure.CreateFailed?
    ensures r.Err? && r.failure.CreateFailed? ==>
      requests >= 0 && concurrency > 0 &&
      r.failure.worker < concurrency && r.failure.unit < requests / concurrency &&
      calls[r.failure.worker][r.failure.unit] == CallFailed &&
      (forall j :: 0 <= j < r.failure.unit ==> calls[r.failure.worker][j].Acked?) &&
      (forall v, j :: 0 <= v < r.failure.worker && 0 <= j < requests / concurrency ==> calls[v][j].Acked?)
    ensures r.Ok? && concurrency > 0 ==>
      |r.value.timings| == |schedule| == concurrency * (requests / concurrency) <= requests &&
      r.value.progress == Lines(|schedule|, requests)
    ensures r.Ok? && concurrency > 0 ==>
      forall k :: 0 <= k < |schedule| ==>
        calls[schedule[k]][Rank(schedule, k)] == Acked(r.value.timings[k])
  {
    if requests < 0 {
      return Err(ChannelSizeOutOfRange);
    }
    var started := Session(requests, concurrency, images);
    if started.Err? {
      assert started.failure == DivideByZero;
      return Err(DivideByZero);
    }
    var work := started.value;
    var emissions: seq<seq<nat>> := [];
    var w := 0;
    while w < |work|
      invariant w <= |work|
      invariant |emissions| == w
      invariant forall v :: 0 <= v < w ==> |emissions[v]| == requests / concurrency
      invariant forall v, j :: 0 <= v < w && 0 <= j < |emissions[v]| ==> calls[v][j] == Acked(emissions[v][j])
    {
      var emitted, failedAt := Worker(work[w].units, calls[w]);
      if failedAt.Some? {
        return Err(CreateFailed(w, failedAt.value));
      }
      emissions := emissions + [emitted];
      w := w + 1;
    }
    if concurrency < 0 {
      var timings, current, progress := Consume(requests, []);
      return Ok(Report(timings, progress));
    }
    assert Interleaves(schedule, emissions);
    var stream := Arrivals(emissions, schedule);
    TotalLengthUniform(emissions, requests / concurrency);
    PartitionTotal(requests, concurrency, images);
    var timings, current, progress := Consume(requests, stream);
    r := Ok(Report(timings, progress));
  }
}
