/**
 The outgoing fetch: resolve, check every address, connect to the first, and follow redirects, each hop
 checked anew; then read the body within its limits. Every finished call is counted once.

 What the resolver, the transport, the decoder and the clock do is given by a world: one hop after another,
 anything at all.
 */
module EgressFetcher {
  import opened Wrappers
  import opened EgressAddresses

  datatype Code =
    | InvalidUrl | ProtocolBlocked | CredentialsBlocked | DnsFailed | PortBlocked | AddressBlocked | RedirectLimit | RedirectInvalid
    | ConnectTimeout | TotalTimeout | WireTooLarge | ResponseTooLarge | ContentTypeBlocked | ContentEncodingBlocked | TransportError

  /** A URL after `validateUrl`, or the code it was refused with. */
  datatype Checked = Accepted(url: string) | Refused(code: Code)

  datatype Address = Ipv4(octets: Octets) | Ipv6(text: string) | NoAddress

  ghost predicate IsPublic(a: Address) {
    match a
    case Ipv4(o) => forall i :: 0 <= i < |BLOCKED_IPV4| ==> !InBlock(o, BLOCKED_IPV4[i])
    case Ipv6(text) => IsPublicIpv6(text)
    case NoAddress => false
  }

  /** `isPublicEgressAddress` */
  method IsPublicEgressAddress(a: Address) returns (public: bool)
    ensures public <==> IsPublic(a)
  {
    match a {
      case Ipv4(o) => public := IsPublicIpv4(o);
      case Ipv6(text) => public := IsPublicIpv6(text);
      case NoAddress => public := false;
    }
  }

  /** An answer of the resolver; `consistent` if its family is the one `isIP` tells. */
  datatype Answer = Answer(address: Address, consistent: bool)

  datatype Resolution = Answers(answers: seq<Answer>) | ResolverFails(code: Option<Code>)

  /** One step of a body: data, with the clock before and after; a failure; or the end. */
  datatype Chunk = Data(bytes: seq<bv8>, before: int, after: int) | Broken(code: Option<Code>, before: int)

  /** `decode` is what the decoder makes of the chunks that reach it, anything at all. */
  datatype Encoding = Identity | Compressed(decode: seq<Chunk> -> seq<Chunk>) | Unsupported

  datatype Response = Response(
    status: int,
    location: Option<Checked>,
    contentTypeAllowed: bool,
    declaredLength: Option<int>,
    encoding: Encoding,
    wire: seq<Chunk>,
    end: int
  )

  datatype Reply = Responds(response: Response) | TransportFails(code: Option<Code>)

  /** What a hop meets: the clock at its start, the resolver's answer, the transport's reply. */
  datatype Hop = Hop(now: int, resolution: Resolution, reply: Reply)

  datatype Limits = Limits(maxRedirects: int, totalTimeoutMs: int, maxWireBytes: int, maxResponseBytes: int)

  datatype Call = Call(url: string, address: Address)

  datatype Fetched = Fetched(url: string, status: int, body: seq<bv8>, redirects: nat)

  predicate IsRedirect(status: int) { status in {301, 302, 303, 307, 308} }

  function Max(a: int, b: int): int { if a >= b then a else b }

  // ---------------------------------------------------------------- bodies

  /** The bytes of the data chunks. */
  function Bytes(chunks: seq<Chunk>): seq<bv8> {
    if chunks == [] then []
    else Bytes(chunks[..|chunks| - 1]) + if chunks[|chunks| - 1].Data? then chunks[|chunks| - 1].bytes else []
  }

  /** The first data chunk with which the bytes exceed the limit; the length if there is none. */
  ghost predicate Exceeds(chunks: seq<Chunk>, n: nat, limit: int) {
    n < |chunks| && chunks[n].Data? && |Bytes(chunks[..n + 1])| > limit
  }

  /** The stream is the wire, or where its bytes exceed the limit is cut off there with that failure. */
  ghost predicate LimitedTo(wire: seq<Chunk>, limit: int, stream: seq<Chunk>) {
    || (stream == wire && forall n :: 0 <= n < |wire| ==> !Exceeds(wire, n, limit))
    || exists n :: 0 <= n < |wire| && Exceeds(wire, n, limit) && (forall k :: 0 <= k < n ==> !Exceeds(wire, k, limit))
                   && stream == wire[..n] + [Broken(Some(WireTooLarge), wire[n].before)]
  }

  /** `wireLimitedBody`: the chunks as they come, until their bytes exceed the limit. */
  method WireLimitedBody(wire: seq<Chunk>, maxWireBytes: int) returns (stream: seq<Chunk>)
    ensures |Bytes(stream)| <= Max(0, maxWireBytes)
    ensures LimitedTo(wire, maxWireBytes, stream)
  {
    stream := [];
    var wireBytes := 0;
    for n := 0 to |wire|
      invariant stream == wire[..n] && wireBytes == |Bytes(stream)|
      invariant wireBytes <= Max(0, maxWireBytes)
      invariant forall k :: 0 <= k < n ==> !Exceeds(wire, k, maxWireBytes)
    {
      assert wire[..n + 1][..n] == wire[..n];
      if wire[n].Data? {
        wireBytes := wireBytes + |wire[n].bytes|;
        if wireBytes > maxWireBytes {
          stream := stream + [Broken(Some(WireTooLarge), wire[n].before)];
          assert stream[..n] == wire[..n];
          assert Exceeds(wire, n, maxWireBytes);
          return;
        }
      }
      stream := stream + [wire[n]];
    }
  }

  predicate Whole(chunks: seq<Chunk>) { forall i :: 0 <= i < |chunks| ==> chunks[i].Data? }

  function FirstBroken(chunks: seq<Chunk>): (n: nat)
    ensures n <= |chunks| && Whole(chunks[..n]) && (n < |chunks| ==> chunks[n].Broken?)
  {
    if chunks == [] || chunks[0].Broken? then 0
    else
      var n := 1 + FirstBroken(chunks[1..]);
      assert forall i :: 0 < i < n ==> chunks[i] == chunks[1..][i - 1];
      n
  }

  /** `decodedBody`: a failure of the source destroys the decoder with that failure. */
  function DecodedBody(encoding: Encoding, source: seq<Chunk>): seq<Chunk>
    requires !encoding.Unsupported?
  {
    match encoding
    case Identity => source
    case Compressed(decode) =>
      var n := FirstBroken(source);
      if n == |source| then decode(source) else decode(source[..n]) + [source[n]]
  }

  /** A failure of the source is one of the decoded body. */
  lemma BrokenSurfaces(encoding: Encoding, source: seq<Chunk>)
    requires !encoding.Unsupported? && !Whole(source)
    ensures !Whole(DecodedBody(encoding, source))
  {
    var n := FirstBroken(source);
    assert source[..|source|] == source;
    var decoded := DecodedBody(encoding, source);
    assert encoding.Compressed? ==> decoded[|decoded| - 1] == source[n];
  }

  /** A decoded body without a failure comes from a wire without one that kept within its limit. */
  lemma WholeBody(encoding: Encoding, wire: seq<Chunk>, source: seq<Chunk>, limit: int)
    requires !encoding.Unsupported? && Whole(DecodedBody(encoding, source)) && LimitedTo(wire, limit, source)
    ensures source == wire && Within(wire, limit)
  {
    hide Bytes, DecodedBody;
    assert Whole(source) by {
      if !Whole(source) { BrokenSurfaces(encoding, source); }
    }
    forall n | 0 <= n < |wire| ensures !Whole(wire[..n] + [Broken(Some(WireTooLarge), wire[n].before)]) {
      var cut := wire[..n] + [Broken(Some(WireTooLarge), wire[n].before)];
      assert cut[n].Broken?;
    }
    if wire != [] {
      assert !Exceeds(wire, |wire| - 1, limit);
      assert wire[..|wire|] == wire;
    }
  }

  /** All chunks are data, and all their bytes together within the limit, which no chunk at all always is. */
  ghost predicate Within(chunks: seq<Chunk>, limit: int) { Whole(chunks) && (chunks == [] || |Bytes(chunks)| <= limit) }

  // What reading makes of a body, said of its chunks, the bytes so far and the clock readings.

  /** The chunk is data that was asked for and came before the deadline, and all data so far is within the limit. */
  ghost predicate Passes(body: seq<Chunk>, n: nat, limit: int, deadline: int)
    requires n < |body|
  {
    body[n].before < deadline && body[n].Data? && |Bytes(body[..n + 1])| <= limit && body[n].after < deadline
  }

  /** Why a chunk does not pass: the deadline, its own failure, the limit, and the deadline again, in this order. */
  ghost predicate StopsWith(body: seq<Chunk>, n: nat, limit: int, deadline: int, code: Code)
    requires n < |body|
  {
    if body[n].before >= deadline then code == TotalTimeout
    else match body[n]
      case Broken(c, _) => code == if c.Some? then c.value else TransportError
      case Data(_, _, after) =>
        (|Bytes(body[..n + 1])| > limit && code == ResponseTooLarge) || (|Bytes(body[..n + 1])| <= limit && after >= deadline && code == TotalTimeout)
  }

  /** All bytes if every chunk passes and the body ends before the deadline; otherwise why the first did not, or the deadline. */
  ghost predicate BodyEnds(body: seq<Chunk>, end: int, limit: int, deadline: int, r: Result<seq<bv8>, Code>) {
    match r
    case Success(bytes) => (forall n: nat :: n < |body| ==> Passes(body, n, limit, deadline)) && end < deadline && bytes == Bytes(body)
    case Failure(code) =>
      || ((forall n: nat :: n < |body| ==> Passes(body, n, limit, deadline)) && end >= deadline && code == TotalTimeout)
      || exists n: nat :: n < |body| && StopsWith(body, n, limit, deadline, code) && forall k: nat :: k < n ==> Passes(body, k, limit, deadline)
  }

  ghost predicate BodyRead(response: Response, limits: Limits, startedAt: int, r: Result<seq<bv8>, Code>) {
    if response.encoding.Unsupported? then r == Failure(ContentEncodingBlocked)
    else exists source :: LimitedTo(response.wire, limits.maxWireBytes, source)
           && BodyEnds(DecodedBody(response.encoding, source), response.end, limits.maxResponseBytes, startedAt + limits.totalTimeoutMs, r)
  }

  /** A body that arrives whole, within both limits and before the deadline. */
  ghost predicate Timely(response: Response, limits: Limits, startedAt: int) {
    && !response.encoding.Unsupported? && Within(response.wire, limits.maxWireBytes)
    && var body, deadline := DecodedBody(response.encoding, response.wire), startedAt + limits.totalTimeoutMs;
    && Within(body, limits.maxResponseBytes) && response.end < deadline
    && forall n :: 0 <= n < |body| ==> body[n].before < deadline && body[n].after < deadline
  }

  lemma {:induction false} BytesGrow(chunks: seq<Chunk>, n: nat)
    requires n <= |chunks|
    ensures |Bytes(chunks[..n])| <= |Bytes(chunks)|
  {
    if n < |chunks| {
      BytesGrow(chunks[..|chunks| - 1], n);
      assert chunks[..|chunks| - 1][..n] == chunks[..n];
    } else {
      assert chunks[..n] == chunks;
    }
  }

  /** Every chunk passes exactly if all are data within the limit that came before the deadline. */
  lemma AllPass(body: seq<Chunk>, limit: int, deadline: int)
    ensures (forall n: nat :: n < |body| ==> Passes(body, n, limit, deadline))
       <==> Within(body, limit) && forall n :: 0 <= n < |body| ==> body[n].before < deadline && body[n].Data? && body[n].after < deadline
  {
    if Within(body, limit) && (forall n :: 0 <= n < |body| ==> body[n].before < deadline && body[n].Data? && body[n].after < deadline) {
      forall n: nat | n < |body| ensures Passes(body, n, limit, deadline) { BytesGrow(body, n + 1); }
    }
    hide Bytes;
    if forall n: nat :: n < |body| ==> Passes(body, n, limit, deadline) {
      if body != [] {
        assert Passes(body, |body| - 1, limit, deadline);
        assert body[..|body|] == body;
      }
      forall n | 0 <= n < |body| ensures body[n].before < deadline && body[n].Data? && body[n].after < deadline {
        assert Passes(body, n, limit, deadline);
      }
    }
  }

  lemma Unlimited(wire: seq<Chunk>, limit: int, source: seq<Chunk>)
    requires Within(wire, limit) && LimitedTo(wire, limit, source)
    ensures source == wire
  {
    forall n: nat | n < |wire| ensures !Exceeds(wire, n, limit) { BytesGrow(wire, n + 1); }
    hide Exceeds, Bytes;
  }

  /** A body is read exactly if it is timely, and then with all its bytes. */
  lemma ReadIffTimely(response: Response, limits: Limits, startedAt: int, r: Result<seq<bv8>, Code>)
    requires BodyRead(response, limits, startedAt, r)
    ensures r.Success? <==> Timely(response, limits, startedAt)
    ensures r.Success? ==> r.value == Bytes(DecodedBody(response.encoding, response.wire))
    ensures r.Success? ==> !response.encoding.Unsupported? && Whole(response.wire) && |Bytes(response.wire)| <= Max(0, limits.maxWireBytes) && |r.value| <= Max(0, limits.maxResponseBytes)
  {
    if !response.encoding.Unsupported? {
      var deadline := startedAt + limits.totalTimeoutMs;
      var source :| LimitedTo(response.wire, limits.maxWireBytes, source)
                    && BodyEnds(DecodedBody(response.encoding, source), response.end, limits.maxResponseBytes, deadline, r);
      var body := DecodedBody(response.encoding, source);
      hide LimitedTo, DecodedBody, Within, Bytes, Whole;
      AllPass(body, limits.maxResponseBytes, deadline);
      StopsNotPasses(body, limits.maxResponseBytes, deadline);
      if r.Success? { WholeBody(response.encoding, response.wire, source, limits.maxWireBytes) by { WithinWhole(body, limits.maxResponseBytes); } }
      if r.Success? {
        WithinWhole(response.wire, limits.maxWireBytes);
        WithinWhole(body, limits.maxResponseBytes);
      }
      if Timely(response, limits, startedAt) { Unlimited(response.wire, limits.maxWireBytes, source); }
    }
  }

  lemma WithinWhole(chunks: seq<Chunk>, limit: int)
    requires Within(chunks, limit)
    ensures Whole(chunks) && |Bytes(chunks)| <= Max(0, limit)
  {
  }

  lemma StopsNotPasses(body: seq<Chunk>, limit: int, deadline: int)
    ensures forall n: nat, code :: n < |body| && StopsWith(body, n, limit, deadline, code) ==> !Passes(body, n, limit, deadline)
  {
    hide Bytes;
  }

  /** What a failure of a body of supported encoding, cut off at the wire limit, says. */
  lemma FailureMeans(body: seq<Chunk>, end: int, limit: int, deadline: int, code: Code)
    requires BodyEnds(body, end, limit, deadline, Failure(code))
    ensures || (end >= deadline && code == TotalTimeout)
            || exists n: nat :: n < |body| && Within(body[..n], limit) && FailsFor(body, n, limit, deadline, code)
  {
    if n: nat :| n < |body| && StopsWith(body, n, limit, deadline, code) && forall k: nat :: k < n ==> Passes(body, k, limit, deadline) {
      AllPass(body[..n], limit, deadline);
      forall k: nat | k < n ensures Passes(body[..n], k, limit, deadline) {
        assert Passes(body, k, limit, deadline) && body[..n][..k + 1] == body[..k + 1];
      }
      hide Bytes, Passes, Within;
      assert FailsFor(body, n, limit, deadline, code);
    }
  }

  /** A timeout needs a reading past the deadline, a body too large more bytes than the limit; else the chunk carries the code. */
  ghost predicate FailsFor(body: seq<Chunk>, n: nat, limit: int, deadline: int, code: Code)
    requires n < |body|
  {
    || (code == TotalTimeout && (body[n].before >= deadline || (body[n].Data? && body[n].after >= deadline)))
    || (code == ResponseTooLarge && body[n].Data? && |Bytes(body[..n + 1])| > limit)
    || (body[n].Broken? && code == if body[n].code.Some? then body[n].code.value else TransportError)
  }

  method ReadBody(response: Response, limits: Limits, startedAt: int) returns (r: Result<seq<bv8>, Code>)
    ensures BodyRead(response, limits, startedAt, r)
    ensures r.Success? <==> Timely(response, limits, startedAt)
    ensures r.Success? ==> r.value == Bytes(DecodedBody(response.encoding, response.wire))
    ensures r.Success? ==> !response.encoding.Unsupported? && Whole(response.wire) && |Bytes(response.wire)| <= Max(0, limits.maxWireBytes) && |r.value| <= Max(0, limits.maxResponseBytes)
  {
    hide LimitedTo, DecodedBody, Bytes, Timely, BodyEnds;
    if response.encoding.Unsupported? {
      r := Failure(ContentEncodingBlocked);
    } else {
      var source := WireLimitedBody(response.wire, limits.maxWireBytes);
      r := ReadChunks(DecodedBody(response.encoding, source), response.end, limits, startedAt);
    }
    ReadIffTimely(response, limits, startedAt, r);
  }

  method ReadChunks(stream: seq<Chunk>, end: int, limits: Limits, startedAt: int) returns (r: Result<seq<bv8>, Code>)
    ensures BodyEnds(stream, end, limits.maxResponseBytes, startedAt + limits.totalTimeoutMs, r)
  {
    ghost var deadline := startedAt + limits.totalTimeoutMs;
    var body: seq<bv8> := [];
    var received := 0;
    for n := 0 to |stream|
      invariant body == Bytes(stream[..n]) && received == |body|
      invariant forall k: nat :: k < n ==> Passes(stream, k, limits.maxResponseBytes, deadline)
    {
      BytesOn(stream, n);
      hide Bytes;
      if limits.totalTimeoutMs - (stream[n].before - startedAt) <= 0 {
        assert StopsWith(stream, n, limits.maxResponseBytes, deadline, TotalTimeout);
        return Failure(TotalTimeout);
      }
      match stream[n] {
        case Broken(code, _) =>
          r := Failure(if code.Some? then code.value else TransportError);
          assert StopsWith(stream, n, limits.maxResponseBytes, deadline, r.error);
          return;
        case Data(bytes, _, after) =>
          received := received + |bytes|;
          if received > limits.maxResponseBytes {
            assert StopsWith(stream, n, limits.maxResponseBytes, deadline, ResponseTooLarge);
            return Failure(ResponseTooLarge);
          }
          if after - startedAt >= limits.totalTimeoutMs {
            assert StopsWith(stream, n, limits.maxResponseBytes, deadline, TotalTimeout);
            return Failure(TotalTimeout);
          }
          body := body + bytes;
      }
    }
    assert stream[..|stream|] == stream;
    if limits.totalTimeoutMs - (end - startedAt) <= 0 { return Failure(TotalTimeout); }
    return Success(body);
  }

  lemma BytesOn(chunks: seq<Chunk>, n: nat)
    requires n < |chunks|
    ensures Bytes(chunks[..n + 1]) == Bytes(chunks[..n]) + if chunks[n].Data? then chunks[n].bytes else []
  {
    assert chunks[..n + 1][..n] == chunks[..n];
  }

  // ---------------------------------------------------------------- the fetcher

  /** What a finished call is counted under. */
  datatype Metric = EgressOk | Error(code: Code)

  function MetricOf(r: Result<Fetched, Code>): Metric { match r case Success(_) => EgressOk case Failure(code) => Error(code) }

  function Count(metrics: map<Metric, nat>, m: Metric): nat { if m in metrics then metrics[m] else 0 }

  ghost function Total(metrics: map<Metric, nat>): nat { SumOver(metrics, metrics.Keys) }

  ghost function SumOver(metrics: map<Metric, nat>, keys: set<Metric>): nat
    requires keys <= metrics.Keys
  {
    if keys == {} then 0
    else
      var k :| k in keys;
      metrics[k] + SumOver(metrics, keys - {k})
  }

  lemma {:induction false} SumWithout(metrics: map<Metric, nat>, keys: set<Metric>, m: Metric)
    requires keys <= metrics.Keys && m in keys
    ensures SumOver(metrics, keys) == metrics[m] + SumOver(metrics, keys - {m})
  {
    var k :| k in keys && SumOver(metrics, keys) == metrics[k] + SumOver(metrics, keys - {k});
    if k != m {
      SumWithout(metrics, keys - {k}, m);
      assert keys - {k} - {m} == keys - {m} - {k};
      SumWithout(metrics, keys - {m}, k);
    }
  }

  lemma {:induction false} SameSum(a: map<Metric, nat>, b: map<Metric, nat>, keys: set<Metric>)
    requires keys <= a.Keys && keys <= b.Keys && forall k :: k in keys ==> a[k] == b[k]
    ensures SumOver(a, keys) == SumOver(b, keys)
  {
    if keys != {} {
      var k :| k in keys && SumOver(a, keys) == a[k] + SumOver(a, keys - {k});
      SumWithout(b, keys, k);
      SameSum(a, b, keys - {k});
    }
  }

  /** Counting one more raises the total by one, whatever was counted before. */
  lemma OneMoreCounted(metrics: map<Metric, nat>, m: Metric)
    ensures Total(metrics[m := Count(metrics, m) + 1]) == Total(metrics) + 1
  {
    var next := metrics[m := Count(metrics, m) + 1];
    SumWithout(next, next.Keys, m);
    assert next.Keys - {m} == metrics.Keys - {m};
    SameSum(next, metrics, metrics.Keys - {m});
    if m in metrics {
      SumWithout(metrics, metrics.Keys, m);
    } else {
      assert metrics.Keys - {m} == metrics.Keys;
    }
  }

  /** The metric is counted once more, so the total goes up by one; nothing else changes. */
  ghost predicate CountedOnce(before: map<Metric, nat>, after: map<Metric, nat>, m: Metric) {
    after == before[m := Count(before, m) + 1] && Total(after) == Total(before) + 1
  }

  /** The call of a hop goes to the first address of that hop's own resolution, all of which are public. */
  ghost predicate Checks(call: Call, hop: Hop) {
    && hop.resolution.Answers? && hop.resolution.answers != []
    && call.address == hop.resolution.answers[0].address
    && AllConsistentAnswers(hop.resolution.answers) && AllPublicAnswers(hop.resolution.answers)
  }

  /** The calls start at the given URL and follow the accepted redirects, hop by hop. */
  ghost predicate Follows(calls: seq<Call>, start: string, world: nat -> Hop) {
    && (calls != [] ==> calls[0].url == start)
    && (forall i :: 0 <= i < |calls| ==> Checks(calls[i], world(i)))
    && forall i :: 0 <= i < |calls| - 1 ==> Redirects(world(i), calls[i + 1].url)
  }

  ghost predicate Redirects(hop: Hop, url: string) {
    hop.reply.Responds? && IsRedirect(hop.reply.response.status) && hop.reply.response.location == Some(Accepted(url))
  }

  /** The code a hop is refused with before its call, if it is. */
  ghost function RefusalOf(hop: Hop, limits: Limits, startedAt: int): Option<Code> {
    if hop.now - startedAt >= limits.totalTimeoutMs then Some(TotalTimeout)
    else match hop.resolution
      case ResolverFails(code) => Some(if code.Some? then code.value else DnsFailed)
      case Answers(answers) =>
        if answers == [] || !AllConsistentAnswers(answers) then Some(DnsFailed)
        else if !AllPublicAnswers(answers) then Some(AddressBlocked)
        else None
  }

  ghost predicate AllConsistentAnswers(answers: seq<Answer>) { forall i :: 0 <= i < |answers| ==> answers[i].consistent }

  ghost predicate AllPublicAnswers(answers: seq<Answer>) { forall i :: 0 <= i < |answers| ==> IsPublic(answers[i].address) }

  /** The code the call's own reply ends the fetch with; none where a redirect is followed or the body read. */
  function FailureOf(reply: Reply, redirects: nat, limits: Limits): Option<Code> {
    match reply
    case TransportFails(code) => Some(if code.Some? then code.value else TransportError)
    case Responds(response) =>
      if IsRedirect(response.status) then
        if redirects >= limits.maxRedirects then Some(RedirectLimit)
        else match response.location
          case None => Some(RedirectInvalid)
          case Some(Refused(code)) => Some(code)
          case Some(Accepted(_)) => None
      else if !response.contentTypeAllowed then Some(ContentTypeBlocked)
      else if response.declaredLength.Some? && response.declaredLength.value > limits.maxWireBytes then Some(WireTooLarge)
      else None
  }

  /** A redirect to a URL that is accepted. */
  ghost predicate Redirected(reply: Reply) {
    reply.Responds? && IsRedirect(reply.response.status) && reply.response.location.Some? && reply.response.location.value.Accepted?
  }

  /** A fetch stops at the hop after its calls, which it was redirected to and which is refused. */
  ghost predicate StopsAtHop(n: nat, world: nat -> Hop, limits: Limits, startedAt: int, r: Result<Fetched, Code>) {
    r.Failure? && RefusalOf(world(n), limits, startedAt) == Some(r.error) && (n > 0 ==> n <= limits.maxRedirects && Redirected(world(n - 1).reply))
  }

  /** How a fetch ends: refused at the next hop, by the reply to its last call, or with the body of that reply. */
  ghost predicate Ends(calls: seq<Call>, world: nat -> Hop, limits: Limits, startedAt: int, r: Result<Fetched, Code>) {
    var n := |calls|;
    || StopsAtHop(n, world, limits, startedAt, r)
    || (n > 0 && r.Failure? && FailureOf(world(n - 1).reply, n - 1, limits) == Some(r.error))
    || (n > 0 && ReadsBody(world(n - 1).reply, n - 1, limits)
        && BodyRead(world(n - 1).reply.response, limits, startedAt, BodyOf(r)) && (r.Success? ==> Delivers(r.value, calls, world(n - 1).reply.response, limits)))
  }

  function BodyOf(r: Result<Fetched, Code>): Result<seq<bv8>, Code> { match r case Success(f) => Success(f.body) case Failure(code) => Failure(code) }

  lemma EndsAtHop(calls: seq<Call>, world: nat -> Hop, limits: Limits, startedAt: int, code: Code)
    requires StopsAtHop(|calls|, world, limits, startedAt, Failure(code))
    ensures Ends(calls, world, limits, startedAt, Failure(code))
  {
  }

  lemma EndsByReply(calls: seq<Call>, world: nat -> Hop, limits: Limits, startedAt: int, code: Code)
    requires calls != [] && FailureOf(world(|calls| - 1).reply, |calls| - 1, limits) == Some(code)
    ensures Ends(calls, world, limits, startedAt, Failure(code))
  {
  }

  lemma EndsWithBody(calls: seq<Call>, world: nat -> Hop, limits: Limits, startedAt: int, r: Result<Fetched, Code>)
    requires calls != [] && ReadsBody(world(|calls| - 1).reply, |calls| - 1, limits)
    requires BodyRead(world(|calls| - 1).reply.response, limits, startedAt, BodyOf(r))
    requires r.Success? ==> Delivers(r.value, calls, world(|calls| - 1).reply.response, limits)
    ensures Ends(calls, world, limits, startedAt, r)
  {
  }

  lemma FollowsNone(start: string, world: nat -> Hop)
    ensures Follows([], start, world)
  {
  }

  lemma FollowsOn(calls: seq<Call>, start: string, world: nat -> Hop, call: Call)
    requires Follows(calls, start, world) && Checks(call, world(|calls|))
    requires if calls == [] then call.url == start else Redirects(world(|calls| - 1), call.url)
    ensures Follows(calls + [call], start, world)
  {
    hide Checks, Redirects;
  }

  ghost predicate ReadsBody(reply: Reply, redirects: nat, limits: Limits) {
    reply.Responds? && !IsRedirect(reply.response.status) && FailureOf(reply, redirects, limits).None?
  }

  /** What a success returns: the whole decoded body of an allowed response, within both limits. */
  ghost predicate Delivers(f: Fetched, calls: seq<Call>, response: Response, limits: Limits) {
    && calls != [] && f.redirects == |calls| - 1 && f.url == calls[f.redirects].url && f.status == response.status
    && response.contentTypeAllowed && Whole(response.wire) && |Bytes(response.wire)| <= Max(0, limits.maxWireBytes)
    && !response.encoding.Unsupported? && f.body == Bytes(DecodedBody(response.encoding, response.wire))
    && |f.body| <= Max(0, limits.maxResponseBytes)
  }

  class SafeEgressFetcher {
    var metrics: map<Metric, nat>

    constructor ()
      ensures metrics == map[]
    {
      metrics := map[];
    }

    method Record(m: Metric)
      modifies this
      ensures CountedOnce(old(metrics), metrics, m)
    {
      OneMoreCounted(metrics, m);
      metrics := metrics[m := Count(metrics, m) + 1];
    }

    /** Each way out records its own outcome; no way out records another, and going on records nothing. */
    method Fetch(start: Checked, world: nat -> Hop, limits: Limits, startedAt: int)
      returns (r: Result<Fetched, Code>, ghost calls: seq<Call>)
      modifies this
      ensures CountedOnce(old(metrics), metrics, MetricOf(r))
      ensures |calls| <= Max(0, limits.maxRedirects) + 1
      ensures start.Refused? ==> calls == [] && r == Failure(start.code)
      ensures start.Accepted? ==> Follows(calls, start.url, world) && Ends(calls, world, limits, startedAt, r)
    {
      hide CountedOnce, IsPublic, Bytes, Whole, DecodedBody, BodyRead, Timely, Follows, Ends, AllConsistentAnswers, AllPublicAnswers, IsRedirect;
      calls := [];
      if start.Refused? {
        Record(Error(start.code));
        return Failure(start.code), calls;
      }
      var current := start.url;
      var redirects := 0;
      FollowsNone(start.url, world);
      while true
        invariant metrics == old(metrics)
        invariant |calls| == redirects <= Max(0, limits.maxRedirects)
        invariant Follows(calls, start.url, world)
        invariant redirects == 0 ==> current == start.url
        invariant redirects > 0 ==> Redirects(world(redirects - 1), current) && redirects <= limits.maxRedirects
        decreases Max(0, limits.maxRedirects) - redirects
      {
        var hop := world(redirects);
        if limits.totalTimeoutMs - (hop.now - startedAt) <= 0 {
          Record(Error(TotalTimeout));
          EndsAtHop(calls, world, limits, startedAt, TotalTimeout);
          return Failure(TotalTimeout), calls;
        }
        if hop.resolution.ResolverFails? {
          var code := if hop.resolution.code.Some? then hop.resolution.code.value else DnsFailed;
          Record(Error(code));
          EndsAtHop(calls, world, limits, startedAt, code);
          return Failure(code), calls;
        }
        var answers := hop.resolution.answers;
        var consistent := AllConsistent(answers);
        if !consistent || |answers| == 0 {
          Record(Error(DnsFailed));
          EndsAtHop(calls, world, limits, startedAt, DnsFailed);
          return Failure(DnsFailed), calls;
        }
        var public := AllPublic(answers);
        if !public {
          Record(Error(AddressBlocked));
          EndsAtHop(calls, world, limits, startedAt, AddressBlocked);
          return Failure(AddressBlocked), calls;
        }
        FollowsOn(calls, start.url, world, Call(current, answers[0].address));
        calls := calls + [Call(current, answers[0].address)];
        if hop.reply.TransportFails? {
          var code := if hop.reply.code.Some? then hop.reply.code.value else TransportError;
          Record(Error(code));
          EndsByReply(calls, world, limits, startedAt, code);
          return Failure(code), calls;
        }
        var response := hop.reply.response;
        if IsRedirect(response.status) {
          if redirects >= limits.maxRedirects {
            Record(Error(RedirectLimit));
            EndsByReply(calls, world, limits, startedAt, RedirectLimit);
            return Failure(RedirectLimit), calls;
          }
          if response.location.None? {
            Record(Error(RedirectInvalid));
            EndsByReply(calls, world, limits, startedAt, RedirectInvalid);
            return Failure(RedirectInvalid), calls;
          }
          if response.location.value.Refused? {
            Record(Error(response.location.value.code));
            EndsByReply(calls, world, limits, startedAt, response.location.value.code);
            return Failure(response.location.value.code), calls;
          }
          current := response.location.value.url;
          redirects := redirects + 1;
          continue;
        }
        if !response.contentTypeAllowed {
          Record(Error(ContentTypeBlocked));
          EndsByReply(calls, world, limits, startedAt, ContentTypeBlocked);
          return Failure(ContentTypeBlocked), calls;
        }
        if response.declaredLength.Some? && response.declaredLength.value > limits.maxWireBytes {
          Record(Error(WireTooLarge));
          EndsByReply(calls, world, limits, startedAt, WireTooLarge);
          return Failure(WireTooLarge), calls;
        }
        assert ReadsBody(hop.reply, redirects, limits);
        var body := ReadBody(response, limits, startedAt);
        if body.Failure? {
          Record(Error(body.error));
          EndsWithBody(calls, world, limits, startedAt, Failure(body.error));
          return Failure(body.error), calls;
        }
        Record(EgressOk);
        r := Success(Fetched(current, response.status, body.value, redirects));
        EndsWithBody(calls, world, limits, startedAt, r);
        return;
      }
    }
  }

  /** Whether the family of every answer is the one its text has. */
  method AllConsistent(answers: seq<Answer>) returns (consistent: bool)
    ensures consistent <==> AllConsistentAnswers(answers)
  {
    for n := 0 to |answers|
      invariant forall i :: 0 <= i < n ==> answers[i].consistent
    {
      if !answers[n].consistent { return false; }
    }
    return true;
  }

  method AllPublic(answers: seq<Answer>) returns (public: bool)
    ensures public <==> AllPublicAnswers(answers)
  {
    hide IsPublic;
    for n := 0 to |answers|
      invariant forall i :: 0 <= i < n ==> IsPublic(answers[i].address)
    {
      var one := IsPublicEgressAddress(answers[n].address);
      if !one { return false; }
    }
    return true;
  }
}
