/** The decision logic of the APNs client: the body-size ceiling, the headers of a
    request, the classification of a response, the text of a server error, the order
    of the checks in Push, and PushMulti's pre-checks and fold of per-token results.

    Everything the client hands to code that is not part of this model is a
    parameter, gathered in Env: the payload encoder, Notification.Validate,
    Notification.Topic, url.PathEscape and the HTTP round trip. A reply's body is given
    together with the outcome of json.Unmarshal on it. */
module Client {
  import opened Base
  import opened Decimal
  import opened Payload
  import opened PayloadMarshal
  import opened ApsMarshal
  import opened PriorityHeader
  import opened Expiration

  /** The token limit NewClient gives every client (the initial tokenLimits). */
  const MaxTokens := 100
  const Path: Bytes := "/3/device/"

  /** The two push types the client treats specially (apns-push-type values). */
  const Voip: Bytes := "voip"
  const Location: Bytes := "location"

  const VoipBodyLimit := 5120
  const BodyLimit := 4096

  datatype Notification = Notification(
    bundleId: Bytes,
    deviceToken: Bytes,
    pushType: Bytes,
    apnsId: Bytes,
    expiration: Option<EpochTime>,
    priority: Priority,
    collapseId: Bytes,
    payload: NotificationPayload)

  /** The fields of Client the decisions read; tokenLimits starts at MaxTokens, and
      FastJson is not a field here because it only picks the encoder (Env.marshal). */
  datatype Config = Config(host: Bytes, tokenBase: bool, tokenLimits: int, development: bool)

  /** Error: the structured error a server reply carries. */
  datatype ApnsError = ApnsError(statusCode: Int64, reason: Bytes, timestamp: Int64)

  datatype PushError =
    | Invalid(message: Bytes)          // Notification.Validate's error, unchanged
    | LocationWithCertificate
    | MarshalFailed(encodeError: EncodeError)
    | TooLarge(size: nat, voip: bool)
    | SendFailed(cause: Bytes)         // "failed to send APNs request: %w"
    | Transport(cause: Bytes)          // a later token's transport error, unwrapped
    | ReadFailed(cause: Bytes)
    | EmptyBody(status: Int64)
    | Unparsable(status: Int64, cause: Bytes)
    | Server(e: ApnsError)
    | Status(status: Int64)
    | EmptyTokens
    | TooManyTokens(got: nat, limit: int)
    | Multi(failures: map<Bytes, PushError>)

  /** json.Unmarshal of a non-empty error body into {reason, timestamp}. */
  datatype ErrorBody = Unparsed(cause: Bytes) | Parsed(reason: Bytes, timestamp: Int64)

  /** What the HTTP round trip returns: status, the apns-id and apns-unique-id headers,
      io.ReadAll's outcome, and what parsing that body as an error body gives. */
  datatype Reply = Reply(status: Int64, apnsId: Bytes, uniqueId: Bytes, body: Result<Bytes, Bytes>, parsed: ErrorBody)

  datatype Response = Response(deviceToken: Bytes, uniqueId: Bytes, apnsId: Bytes)

  datatype Request = Request(path: Bytes, headers: map<Bytes, Bytes>, body: Bytes)

  // ---------------------------------------------------------------------------
  // Error

  function ErrorPrefix(e: ApnsError): Bytes {
    "APNs error: status=" + FormatInt(e.statusCode) + " reason=" + e.reason
  }

  /** Error.Error. */
  function ErrorText(e: ApnsError): (s: Bytes)
    ensures |s| >= |ErrorPrefix(e)| && s[..|ErrorPrefix(e)|] == ErrorPrefix(e)
  {
    if e.timestamp != 0 then ErrorPrefix(e) + " timestamp=" + FormatInt(e.timestamp)
    else ErrorPrefix(e)
  }

  /** Error.TimeStamp: nil for a zero timestamp, else the instant in milliseconds. */
  function TimeStamp(e: ApnsError): (t: Option<Int64>)
    ensures t.None? <==> e.timestamp == 0
    ensures t.Some? ==> t.value == e.timestamp
  {
    if e.timestamp == 0 then None else Some(e.timestamp)
  }

  /** The text has a timestamp part exactly when TimeStamp is not nil, and that part
      reads back as the timestamp. */
  lemma ErrorTextTimestamp(e: ApnsError)
    ensures |ErrorText(e)| > |ErrorPrefix(e)| <==> TimeStamp(e).Some?
    ensures TimeStamp(e).Some? ==>
              var s, n := ErrorText(e), |ErrorPrefix(e)| + 11;
              s[|ErrorPrefix(e)|..n] == " timestamp=" && ParseInt(s[n..]) == Some(e.timestamp as int)
  {
    if e.timestamp != 0 {
      var s, p := ErrorText(e), ErrorPrefix(e);
      assert s == p + " timestamp=" + FormatInt(e.timestamp);
      assert s[|p| + 11..] == FormatInt(e.timestamp);
      FormatIntRoundTrip(e.timestamp);
    }
  }

  /** Two errors with the same status and reason have the same text only if they have
      the same timestamp. */
  lemma ErrorTextInjective(e: ApnsError, f: ApnsError)
    requires e.statusCode == f.statusCode && e.reason == f.reason
    requires ErrorText(e) == ErrorText(f)
    ensures e == f
  {
    ErrorTextTimestamp(e);
    ErrorTextTimestamp(f);
    if e.timestamp != 0 && f.timestamp != 0 {
      assert ErrorPrefix(e) == ErrorPrefix(f);
    }
  }

  // ---------------------------------------------------------------------------
  // newBody

  /** The payload encoder the client uses: Payload.MarshalJSONFast when FastJson is set
      (FastMarshal below), encoding/json otherwise. */
  type Marshal = NotificationPayload -> Result<Bytes, EncodeError>

  function FastMarshal(ff: FloatFormat): Marshal {
    p => PayloadJson(p, ff)
  }

  function SizeLimit(pushType: Bytes): nat {
    if pushType == Voip then VoipBodyLimit else BodyLimit
  }

  /** newBody: the marshalled payload, or an error. */
  function NewBody(n: Notification, marshal: Marshal): Result<Bytes, PushError> {
    match marshal(n.payload)
    case Err(e) => Err(MarshalFailed(e))
    case Ok(body) =>
      if n.pushType == Voip then
        if |body| > 5120 then Err(TooLarge(|body|, true)) else Ok(body)
      else
        if |body| > 4096 then Err(TooLarge(|body|, false)) else Ok(body)
  }

  /** A body is accepted exactly when it encodes and its size is at most the limit for
      the push type (the limit itself included); it is then the payload unchanged. */
  lemma NewBodyLimit(n: Notification, marshal: Marshal)
    ensures NewBody(n, marshal).Ok?
            <==> marshal(n.payload).Ok? && |marshal(n.payload).value| <= SizeLimit(n.pushType)
    ensures NewBody(n, marshal).Ok? ==> NewBody(n, marshal).value == marshal(n.payload).value
    ensures marshal(n.payload).Err? ==> NewBody(n, marshal) == Err(MarshalFailed(marshal(n.payload).error))
    ensures NewBody(n, marshal).Err? && marshal(n.payload).Ok?
            ==> NewBody(n, marshal) == Err(TooLarge(|marshal(n.payload).value|, n.pushType == Voip))
  {
  }

  /** With MarshalJSONFast, an accepted body is the payload's JSON text, `{"aps":` + the
      aps dictionary + the custom members + `}`, of at most 4096 (5120 for voip) bytes. */
  lemma FastBody(n: Notification, ff: FloatFormat)
    ensures NewBody(n, FastMarshal(ff)).Ok?
            <==> PayloadJson(n.payload, ff).Ok? && |PayloadJson(n.payload, ff).value| <= SizeLimit(n.pushType)
    ensures NewBody(n, FastMarshal(ff)).Ok?
            ==> var b := NewBody(n, FastMarshal(ff)).value;
                && b == PayloadJson(n.payload, ff).value
                && |b| <= SizeLimit(n.pushType)
                && b[..|ApsPrefix|] == ApsPrefix && b[|b| - 1] == '}'
  {
    NewBodyLimit(n, FastMarshal(ff));
    if NewBody(n, FastMarshal(ff)).Ok? {
      PayloadFrame(n.payload, ff);
      var b, a := PayloadJson(n.payload, ff).value, ApsJson(n.payload.aps, ff).value;
      assert b[..|ApsPrefix|] == b[..|ApsPrefix| + |a|][..|ApsPrefix|];
    }
  }

  // ---------------------------------------------------------------------------
  // newRequest

  /** Request headers: http.Header.Set replaces a header's value, a map update here. */
  type Header = map<Bytes, Bytes>

  const HeaderPushType: Bytes := "apns-push-type"
  const HeaderTopic: Bytes := "apns-topic"
  const HeaderId: Bytes := "apns-id"
  const HeaderExpiration: Bytes := "apns-expiration"
  const HeaderPriority: Bytes := "apns-priority"
  const HeaderCollapseId: Bytes := "apns-collapse-id"

  /** The functions the client calls that are not part of this model: Notification's
      Validate and Topic, url.PathEscape, the HTTP round trip. Notification.Clone is
      not among them: plain field updates of the Notification value stand for it. */
  datatype Env = Env(
    marshal: Marshal,
    validate: Notification -> Option<Bytes>,
    topic: Notification -> Bytes,
    escape: Bytes -> Bytes,
    send: Request -> Result<Reply, Bytes>)

  /** The request newRequest builds: its URL and headers. */
  function RequestFor(cfg: Config, env: Env, n: Notification, body: Bytes): (r: Request)
    ensures r.path == cfg.host + Path + env.escape(n.deviceToken) && r.body == body
    ensures HeaderPushType in r.headers && r.headers[HeaderPushType] == n.pushType
    ensures HeaderTopic in r.headers && r.headers[HeaderTopic] == env.topic(n)
  {
    var h0: Header := map[HeaderPushType := n.pushType, HeaderTopic := env.topic(n)];
    var h1 := if n.apnsId != [] then h0[HeaderId := n.apnsId] else h0;
    var h2 := if n.expiration.Some? then h1[HeaderExpiration := EpochText(n.expiration.value)] else h1;
    var h3 := if n.priority != PriorityNone then h2[HeaderPriority := PriorityText(n.priority)] else h2;
    var h4 := if n.collapseId != [] then h3[HeaderCollapseId := n.collapseId] else h3;
    Request(cfg.host + Path + env.escape(n.deviceToken), h4, body)
  }

  /** newRequest. */
  method NewRequest(cfg: Config, env: Env, n: Notification, body: Bytes) returns (r: Request)
    ensures r == RequestFor(cfg, env, n, body)
  {
    var path := cfg.host + Path + env.escape(n.deviceToken);
    var h: Header := map[];
    h := h[HeaderPushType := n.pushType];
    h := h[HeaderTopic := env.topic(n)];
    if n.apnsId != [] {
      h := h[HeaderId := n.apnsId];
    }
    if n.expiration.Some? {
      h := h[HeaderExpiration := EpochText(n.expiration.value)];
    }
    if n.priority != PriorityNone {
      h := h[HeaderPriority := PriorityText(n.priority)];
    }
    if n.collapseId != [] {
      h := h[HeaderCollapseId := n.collapseId];
    }
    r := Request(path, h, body);
  }

  /** The request carries these six headers and no others; each optional one is present
      exactly when its field is set, with the field's text. */
  lemma RequestHeaders(cfg: Config, env: Env, n: Notification, body: Bytes)
    ensures var h := RequestFor(cfg, env, n, body).headers;
            && (forall k :: k in h ==> k in {HeaderPushType, HeaderTopic, HeaderId, HeaderExpiration,
                                             HeaderPriority, HeaderCollapseId})
            && (HeaderId in h <==> n.apnsId != [])
            && (HeaderId in h ==> h[HeaderId] == n.apnsId)
            && (HeaderExpiration in h <==> n.expiration.Some?)
            && (HeaderExpiration in h ==> h[HeaderExpiration] == EpochText(n.expiration.value))
            && (HeaderPriority in h <==> n.priority != PriorityNone)
            && (HeaderPriority in h ==> h[HeaderPriority] == PriorityText(n.priority))
            && (HeaderCollapseId in h <==> n.collapseId != [])
            && (HeaderCollapseId in h ==> h[HeaderCollapseId] == n.collapseId)
  {
  }

  /** The apns-expiration header reads back as the epoch second it was built from; a
      defined priority's header reads back as the priority, an undefined one other than
      None is sent as an empty header. */
  lemma RequestHeaderValues(cfg: Config, env: Env, n: Notification, body: Bytes)
    ensures var h := RequestFor(cfg, env, n, body).headers;
            && (n.expiration.Some? ==> ParseInt(h[HeaderExpiration]) == Some(n.expiration.value as int))
            && (n.priority != PriorityNone && IsDefined(n.priority)
                ==> ParseInt(h[HeaderPriority]) == Some(n.priority as int))
            && (n.priority != PriorityNone && !IsDefined(n.priority) ==> h[HeaderPriority] == [])
  {
    RequestHeaders(cfg, env, n, body);
    if n.priority != PriorityNone && IsDefined(n.priority) {
      PriorityReadsBack(n.priority);
    }
  }

  // ---------------------------------------------------------------------------
  // handleResponse

  /** handleResponse: the Response built from the headers, and the error, if any. */
  function HandleResponse(development: bool, reply: Reply): (Response, Option<PushError>) {
    var response := Response([], if development then reply.uniqueId else [], reply.apnsId);
    match reply.body
    case Err(m) => (response, Some(ReadFailed(m)))
    case Ok(body) =>
      if reply.status == 200 then (response, None)
      else if body == [] then (response, Some(EmptyBody(reply.status)))
      else
        match reply.parsed
        case Unparsed(m) => (response, Some(Unparsable(reply.status, m)))
        case Parsed(reason, timestamp) =>
          if reason != [] then (response, Some(Server(ApnsError(reply.status, reason, timestamp))))
          else (response, Some(Status(reply.status)))
  }

  /** The classes of replies, each stated on its own. */
  datatype ReplyClass = Delivered | Unread | Empty | Garbled | Rejected | Failed

  function Classify(reply: Reply): ReplyClass {
    if reply.body.Err? then Unread
    else if reply.status == 200 then Delivered
    else if reply.body.value == [] then Empty
    else if reply.parsed.Unparsed? then Garbled
    else if reply.parsed.reason != [] then Rejected
    else Failed
  }

  /** handleResponse always returns the Response from the apns-id header (and
      apns-unique-id in development); its error is decided by the class of the reply. */
  lemma HandleResponseClasses(development: bool, reply: Reply)
    ensures var (resp, err) := HandleResponse(development, reply);
            && resp.apnsId == reply.apnsId && resp.deviceToken == []
            && resp.uniqueId == (if development then reply.uniqueId else [])
            && (err.None? <==> Classify(reply) == Delivered)
            && (Classify(reply) == Unread ==> err == Some(ReadFailed(reply.body.error)))
            && (Classify(reply) == Empty ==> err == Some(EmptyBody(reply.status)))
            && (Classify(reply) == Garbled ==> err == Some(Unparsable(reply.status, reply.parsed.cause)))
            && (Classify(reply) == Failed ==> err == Some(Status(reply.status)))
  {
  }

  /** A structured Error is returned exactly for a readable, parsable non-200 reply with
      a reason, and it carries the reply's status, reason and timestamp. */
  lemma ServerErrorIff(development: bool, reply: Reply)
    ensures HandleResponse(development, reply).1.Some? && HandleResponse(development, reply).1.value.Server?
            <==> Classify(reply) == Rejected
    ensures Classify(reply) == Rejected
            ==> HandleResponse(development, reply).1
                == Some(Server(ApnsError(reply.status, reply.parsed.reason, reply.parsed.timestamp)))
  {
  }

  // ---------------------------------------------------------------------------
  // Push

  /** What a call did: the response and error it returned and the requests it sent. */
  datatype Outcome = Outcome(response: Option<Response>, err: Option<PushError>, sent: seq<Request>)

  /** Push. */
  function Push(cfg: Config, env: Env, n: Notification): Outcome {
    if env.validate(n).Some? then Outcome(None, Some(Invalid(env.validate(n).value)), [])
    else if n.pushType == Location && !cfg.tokenBase then Outcome(None, Some(LocationWithCertificate), [])
    else
      match NewBody(n, env.marshal)
      case Err(e) => Outcome(None, Some(e), [])
      case Ok(body) =>
        var req := RequestFor(cfg, env, n, body);
        match env.send(req)
        case Err(m) => Outcome(None, Some(SendFailed(m)), [req])
        case Ok(reply) =>
          var (resp, err) := HandleResponse(cfg.development, reply);
          Outcome(Some(resp), err, [req])
  }

  /** Push fails before sending anything, checking in this order: the notification, the
      push type against the connection, the body. */
  lemma PushCheckOrder(cfg: Config, env: Env, n: Notification)
    ensures var o := Push(cfg, env, n);
            && (env.validate(n).Some? ==> o == Outcome(None, Some(Invalid(env.validate(n).value)), []))
            && (env.validate(n).None? && n.pushType == Location && !cfg.tokenBase
                ==> o == Outcome(None, Some(LocationWithCertificate), []))
            && (env.validate(n).None? && (n.pushType != Location || cfg.tokenBase) && NewBody(n, env.marshal).Err?
                ==> o == Outcome(None, Some(NewBody(n, env.marshal).error), []))
  {
  }

  /** Push sends at most one request: exactly when every check passes, and then with the
      marshalled payload, within the size limit, as its body; a response comes back
      exactly when the round trip succeeds, and a nil error only with a 200 reply. */
  lemma PushSendsOnce(cfg: Config, env: Env, n: Notification)
    ensures var o := Push(cfg, env, n);
            && |o.sent| <= 1
            && (|o.sent| == 1 <==> env.validate(n).None? && (n.pushType != Location || cfg.tokenBase)
                                   && NewBody(n, env.marshal).Ok?)
            && (|o.sent| == 1 ==> o.sent[0] == RequestFor(cfg, env, n, NewBody(n, env.marshal).value)
                                  && o.sent[0].body == env.marshal(n.payload).value
                                  && |o.sent[0].body| <= SizeLimit(n.pushType))
            && (o.response.Some? <==> |o.sent| == 1 && env.send(o.sent[0]).Ok?)
            && (o.err.None? <==> o.response.Some? && Classify(env.send(o.sent[0]).value) == Delivered)
  {
    NewBodyLimit(n, env.marshal);
    if Push(cfg, env, n).response.Some? {
      HandleResponseClasses(cfg.development, env.send(Push(cfg, env, n).sent[0]).value);
    }
  }

  // ---------------------------------------------------------------------------
  // PushMulti

  /** One later token's goroutine's result: its token and either its response or its
      error (the results loop ignores a response that comes with an error). */
  datatype TokenResult = TokenResult(token: Bytes, outcome: Result<Response, PushError>)

  /** One later token's goroutine: its request, the round trip, handleResponse. */
  function SendOne(cfg: Config, env: Env, n: Notification, body: Bytes, token: Bytes): (r: TokenResult)
    ensures r.token == token
  {
    var req := RequestFor(cfg, env, n.(deviceToken := token), body);
    match env.send(req)
    case Err(m) => TokenResult(token, Err(Transport(m)))
    case Ok(reply) =>
      var (resp, err) := HandleResponse(cfg.development, reply);
      if err.Some? then TokenResult(token, Err(err.value)) else TokenResult(token, Ok(resp))
  }

  /** A goroutine as a function of its token alone. */
  type Sender = Bytes -> TokenResult

  /** The goroutine for the later tokens, sharing the first token's notification and body. */
  function Later(cfg: Config, env: Env, n: Notification, body: Bytes): Sender {
    t => SendOne(cfg, env, n, body, t)
  }

  /** The later tokens' results in token order: what the goroutines compute. */
  function Sent(one: Sender, rest: seq<Bytes>): (rs: seq<TokenResult>)
    ensures |rs| == |rest|
  {
    seq(|rest|, k requires 0 <= k < |rest| => one(rest[k]))
  }

  /** The results of the later tokens, in delivery order: the channel hands over every
      goroutine's result exactly once. */
  function Results(one: Sender, rest: seq<Bytes>, order: seq<nat>): (rs: seq<TokenResult>)
    requires IsOrder(order, |rest|)
    ensures |rs| == |rest|
    ensures forall i :: 0 <= i < |rs| ==> rs[i] == one(rest[order[i]])
    ensures multiset(rs) == multiset(Sent(one, rest))
  {
    var rs := seq(|rest|, i requires 0 <= i < |rest| => one(rest[order[i]]));
    assert rs == Permuted(Sent(one, rest), order);
    PermutedMultiset(Sent(one, rest), order);
    rs
  }

  /** A result's response, tagged with the token it was sent to. */
  function Tagged(r: TokenResult): Response
    requires r.outcome.Ok?
  {
    r.outcome.value.(deviceToken := r.token)
  }

  /** The fold of the results loop: successes tagged with their token, in delivery
      order; failures by token, a later one for the same token replacing an earlier. */
  function Aggregate(rs: seq<TokenResult>): (seq<Response>, map<Bytes, PushError>) {
    if rs == [] then ([], map[])
    else
      var (s, f) := Aggregate(rs[..|rs| - 1]);
      var r := rs[|rs| - 1];
      if r.outcome.Err? then (s, f[r.token := r.outcome.error])
      else (s + [Tagged(r)], f)
  }

  /** What PushMulti returns, as a function of its inputs. */
  function PushMultiResult(cfg: Config, env: Env, n: Notification, tokens: seq<Bytes>, order: seq<nat>)
    : (seq<Response>, Option<PushError>)
    requires |tokens| > 0 ==> IsOrder(order, |tokens| - 1)
  {
    if tokens == [] then ([], Some(EmptyTokens))
    else if |tokens| > cfg.tokenLimits then ([], Some(TooManyTokens(|tokens|, cfg.tokenLimits)))
    else
      var n' := n.(deviceToken := tokens[0]);
      var o := Push(cfg, env, n');
      if o.response.None? then ([], o.err)
      else if o.err.Some? then ([o.response.value], o.err)
      else
        var agg := Aggregate(Results(Later(cfg, env, n', o.sent[0].body), tokens[1..], order));
        ([o.response.value.(deviceToken := tokens[0])] + agg.0, if |agg.1| > 0 then Some(Multi(agg.1)) else None)
  }

  /** PushMulti. The caller's notification comes back with the first token written into
      it (n'), except when the token list is rejected first. */
  method PushMulti(cfg: Config, env: Env, n: Notification, tokens: seq<Bytes>, order: seq<nat>)
    returns (responses: seq<Response>, err: Option<PushError>, n': Notification)
    requires |tokens| > 0 ==> IsOrder(order, |tokens| - 1)
    ensures (responses, err) == PushMultiResult(cfg, env, n, tokens, order)
    ensures n' == if tokens == [] || |tokens| > cfg.tokenLimits then n else n.(deviceToken := tokens[0])
  {
    n' := n;
    if |tokens| == 0 {
      assert PushMultiResult(cfg, env, n, tokens, order) == ([], Some(EmptyTokens));
      return [], Some(EmptyTokens), n';
    }
    if |tokens| > cfg.tokenLimits {
      assert PushMultiResult(cfg, env, n, tokens, order) == ([], Some(TooManyTokens(|tokens|, cfg.tokenLimits)));
      return [], Some(TooManyTokens(|tokens|, cfg.tokenLimits)), n';
    }
    var successes: seq<Response> := [];
    var firstToken := tokens[0];
    n' := n'.(deviceToken := firstToken);
    var first := Push(cfg, env, n');
    if first.response.None? {
      assert PushMultiResult(cfg, env, n, tokens, order) == ([], first.err);
      return [], first.err, n';
    }
    if first.err.Some? {
      assert PushMultiResult(cfg, env, n, tokens, order) == ([first.response.value], first.err);
      return [first.response.value], first.err, n';
    }
    successes := successes + [first.response.value.(deviceToken := firstToken)];
    var remaining := tokens[1..];
    var body := first.sent[0].body;
    var results := Results(Later(cfg, env, n', body), remaining, order);
    var failures: map<Bytes, PushError>;
    successes, failures := DrainResults(successes, results);
    PushMultiAfterFirst(cfg, env, n, tokens, order);
    assert first == Push(cfg, env, n.(deviceToken := tokens[0]));
    assert results == Results(Later(cfg, env, n.(deviceToken := tokens[0]), first.sent[0].body), tokens[1..], order);
    assert PushMultiResult(cfg, env, n, tokens, order).0 == successes;
    assert PushMultiResult(cfg, env, n, tokens, order).1 == if |failures| > 0 then Some(Multi(failures)) else None;
    if |failures| > 0 {
      return successes, Some(Multi(failures)), n';
    }
    return successes, None, n';
  }

  /** The loop over the results channel: appends each success, tagged with its token, to
      successes and records each failure under its token. */
  method DrainResults(start: seq<Response>, results: seq<TokenResult>)
    returns (successes: seq<Response>, failures: map<Bytes, PushError>)
    ensures successes == start + Aggregate(results).0 && failures == Aggregate(results).1
  {
    successes := start;
    failures := map[];
    for i := 0 to |results|
      invariant successes == start + Aggregate(results[..i]).0
      invariant failures == Aggregate(results[..i]).1
    {
      var res := results[i];
      assert results[..i + 1][..i] == results[..i];
      if res.outcome.Err? {
        failures := failures[res.token := res.outcome.error];
      } else {
        var response := res.outcome.value;
        successes := successes + [response.(deviceToken := res.token)];
      }
    }
    assert results[..|results|] == results;
  }

  // ---------------------------------------------------------------------------
  // Properties of the aggregation

  function CountFailed(rs: seq<TokenResult>): nat {
    if rs == [] then 0 else CountFailed(rs[..|rs| - 1]) + (if rs[|rs| - 1].outcome.Err? then 1 else 0)
  }

  /** Every result is counted once: as a success or as a failure. */
  lemma {:induction false} AggregateCounts(rs: seq<TokenResult>)
    ensures |Aggregate(rs).0| + CountFailed(rs) == |rs|
  {
    if rs != [] {
      AggregateCounts(rs[..|rs| - 1]);
    }
  }

  /** Result i succeeded, and x is its response tagged with its token. */
  predicate SucceededIn(rs: seq<TokenResult>, x: Response) {
    exists i :: 0 <= i < |rs| && rs[i].outcome.Ok? && x == Tagged(rs[i])
  }

  /** Each success is a result without an error, tagged with its token. */
  lemma {:induction false} AggregateSuccesses(rs: seq<TokenResult>)
    ensures forall j :: 0 <= j < |Aggregate(rs).0| ==> SucceededIn(rs, Aggregate(rs).0[j])
  {
    if rs != [] {
      var init, last := rs[..|rs| - 1], rs[|rs| - 1];
      AggregateSuccesses(init);
      var s0 := Aggregate(init).0;
      var s := Aggregate(rs).0;
      assert s == if last.outcome.Err? then s0 else s0 + [Tagged(last)];
      forall j | 0 <= j < |s|
        ensures SucceededIn(rs, s[j])
      {
        if j < |s0| {
          assert SucceededIn(init, s0[j]);
          var i :| 0 <= i < |init| && init[i].outcome.Ok? && s0[j] == Tagged(init[i]);
          assert rs[i] == init[i];
        } else {
          assert rs[|rs| - 1] == last;
        }
      }
    }
  }

  /** Every result without an error is among the successes, tagged with its token. */
  lemma {:induction false} AggregateSuccessesComplete(rs: seq<TokenResult>)
    ensures forall i :: 0 <= i < |rs| && rs[i].outcome.Ok? ==> Tagged(rs[i]) in Aggregate(rs).0
  {
    if rs != [] {
      var init := rs[..|rs| - 1];
      AggregateSuccessesComplete(init);
      assert forall i :: 0 <= i < |init| ==> init[i] == rs[i];
    }
  }

  /** Some result for token t carries an error. */
  predicate FailedResult(rs: seq<TokenResult>, t: Bytes) {
    exists i :: 0 <= i < |rs| && rs[i].outcome.Err? && rs[i].token == t
  }

  /** The failed tokens are exactly the tokens of the results with an error, each mapped
      to an error of that token. */
  lemma {:induction false} AggregateFailures(rs: seq<TokenResult>)
    ensures forall t :: t in Aggregate(rs).1 <==> FailedResult(rs, t)
    ensures forall t :: t in Aggregate(rs).1 ==>
              exists i :: 0 <= i < |rs| && rs[i].token == t && rs[i].outcome == Err(Aggregate(rs).1[t])
  {
    if rs != [] {
      var init := rs[..|rs| - 1];
      AggregateFailures(init);
      assert forall i :: 0 <= i < |init| ==> init[i] == rs[i];
    }
  }

  /** PushMulti rejects an empty token list, and more tokens than the limit, before
      validating or sending anything. */
  lemma PushMultiPreChecks(cfg: Config, env: Env, n: Notification, tokens: seq<Bytes>, order: seq<nat>)
    requires |tokens| > 0 ==> IsOrder(order, |tokens| - 1)
    ensures tokens == [] ==> PushMultiResult(cfg, env, n, tokens, order) == ([], Some(EmptyTokens))
    ensures |tokens| > cfg.tokenLimits && tokens != []
            ==> PushMultiResult(cfg, env, n, tokens, order) == ([], Some(TooManyTokens(|tokens|, cfg.tokenLimits)))
  {
  }

  /** When the first token's push fails before a reply, nothing is returned but the
      error; when its reply is an error, that reply's response alone is returned; when
      it succeeds, its response comes first, tagged with the first token. */
  lemma PushMultiFirstToken(cfg: Config, env: Env, n: Notification, tokens: seq<Bytes>, order: seq<nat>)
    requires 0 < |tokens| <= cfg.tokenLimits && IsOrder(order, |tokens| - 1)
    ensures var o := Push(cfg, env, n.(deviceToken := tokens[0]));
            var (responses, err) := PushMultiResult(cfg, env, n, tokens, order);
            && (o.response.None? ==> responses == [] && err == o.err)
            && (o.response.Some? && o.err.Some? ==> responses == [o.response.value] && err == o.err)
            && (o.err.None? ==> |responses| >= 1 && responses[0] == o.response.value.(deviceToken := tokens[0]))
  {
    PushSendsOnce(cfg, env, n.(deviceToken := tokens[0]));
  }

  /** Some later token (after the first) equal to t fails when sent by one. */
  predicate LaterFailed(one: Sender, tokens: seq<Bytes>, t: Bytes) {
    exists k :: 1 <= k < |tokens| && tokens[k] == t && one(tokens[k]).outcome.Err?
  }

  /** Whatever the delivery order, a token has a failed result exactly when sending to
      it failed. */
  lemma ResultsFailures(one: Sender, tokens: seq<Bytes>, order: seq<nat>)
    requires |tokens| > 0 && IsOrder(order, |tokens| - 1)
    requires forall t :: one(t).token == t
    ensures forall t :: FailedResult(Results(one, tokens[1..], order), t) <==> LaterFailed(one, tokens, t)
  {
    var rest := tokens[1..];
    var rs := Results(one, rest, order);
    forall t
      ensures FailedResult(rs, t) <==> LaterFailed(one, tokens, t)
    {
      if FailedResult(rs, t) {
        var i :| 0 <= i < |rs| && rs[i].outcome.Err? && rs[i].token == t;
        var k := order[i] + 1;
        assert rest[order[i]] == tokens[k];
      }
      if LaterFailed(one, tokens, t) {
        var k :| 1 <= k < |tokens| && tokens[k] == t && one(tokens[k]).outcome.Err?;
        assert k - 1 in order;
        var i :| 0 <= i < |order| && order[i] == k - 1;
        assert rest[k - 1] == tokens[k];
        assert rs[i] == one(tokens[k]);
      }
    }
  }

  /** Once the first token succeeds, the later tokens are sent with its body and their
      results folded into the answer. */
  lemma PushMultiAfterFirst(cfg: Config, env: Env, n: Notification, tokens: seq<Bytes>, order: seq<nat>)
    requires 0 < |tokens| <= cfg.tokenLimits && IsOrder(order, |tokens| - 1)
    requires Push(cfg, env, n.(deviceToken := tokens[0])).err.None?
    ensures var o := Push(cfg, env, n.(deviceToken := tokens[0]));
            var one := Later(cfg, env, n.(deviceToken := tokens[0]), o.sent[0].body);
            var agg := Aggregate(Results(one, tokens[1..], order));
            && o.sent[0].body == env.marshal(n.payload).value
            && PushMultiResult(cfg, env, n, tokens, order).0 == [o.response.value.(deviceToken := tokens[0])] + agg.0
            && PushMultiResult(cfg, env, n, tokens, order).1 == if |agg.1| > 0 then Some(Multi(agg.1)) else None
  {
    PushSendsOnce(cfg, env, n.(deviceToken := tokens[0]));
  }

  /** Once the first token succeeds, the error is nil exactly when no later token
      failed, and otherwise a MultiError whose failed tokens are exactly the later tokens
      whose send, with the first token's body, failed; the responses are the first
      token's and one per later success. */
  lemma PushMultiAggregation(cfg: Config, env: Env, n: Notification, tokens: seq<Bytes>, order: seq<nat>)
    requires 0 < |tokens| <= cfg.tokenLimits && IsOrder(order, |tokens| - 1)
    requires Push(cfg, env, n.(deviceToken := tokens[0])).err.None?
    ensures var n' := n.(deviceToken := tokens[0]);
            var one := Later(cfg, env, n', Push(cfg, env, n').sent[0].body);
            var (responses, err) := PushMultiResult(cfg, env, n, tokens, order);
            && (err.None? <==> forall k :: 1 <= k < |tokens| ==> one(tokens[k]).outcome.Ok?)
            && (err.Some? ==> err.value.Multi?)
            && (err.Some? ==> forall t :: t in err.value.failures <==> LaterFailed(one, tokens, t))
            && |responses| == |tokens| - CountFailed(Results(one, tokens[1..], order))
            && (forall x :: x in responses[1..] ==>
                  exists k :: 1 <= k < |tokens| && one(tokens[k]).outcome.Ok? && x == Tagged(one(tokens[k])))
            && (forall k :: 1 <= k < |tokens| && one(tokens[k]).outcome.Ok? ==> Tagged(one(tokens[k])) in responses[1..])
  {
    var n' := n.(deviceToken := tokens[0]);
    var one := Later(cfg, env, n', Push(cfg, env, n').sent[0].body);
    PushMultiAfterFirst(cfg, env, n, tokens, order);
    var rs := Results(one, tokens[1..], order);
    var f := Aggregate(rs).1;
    AggregateFailures(rs);
    AggregateCounts(rs);
    ResultsFailures(one, tokens, order);
    LaterSuccesses(one, tokens, order);
    if |f| > 0 {
      var t :| t in f;
      assert LaterFailed(one, tokens, t);
    } else {
      forall k | 1 <= k < |tokens|
        ensures one(tokens[k]).outcome.Ok?
      {
        assert !LaterFailed(one, tokens, tokens[k]);
      }
    }
  }
  /** The successes folded from the later tokens' results, whatever the delivery order,
      are exactly the tagged responses of the later tokens whose push succeeded. */
  lemma LaterSuccesses(one: Sender, tokens: seq<Bytes>, order: seq<nat>)
    requires |tokens| > 0 && IsOrder(order, |tokens| - 1)
    ensures var s := Aggregate(Results(one, tokens[1..], order)).0;
            && (forall x :: x in s ==>
                  exists k :: 1 <= k < |tokens| && one(tokens[k]).outcome.Ok? && x == Tagged(one(tokens[k])))
            && (forall k :: 1 <= k < |tokens| && one(tokens[k]).outcome.Ok? ==> Tagged(one(tokens[k])) in s)
  {
    var rest := tokens[1..];
    var rs := Results(one, rest, order);
    var s := Aggregate(rs).0;
    AggregateSuccesses(rs);
    AggregateSuccessesComplete(rs);
    forall x | x in s
      ensures exists k :: 1 <= k < |tokens| && one(tokens[k]).outcome.Ok? && x == Tagged(one(tokens[k]))
    {
      var j :| 0 <= j < |s| && s[j] == x;
      assert SucceededIn(rs, s[j]);
      var i :| 0 <= i < |rs| && rs[i].outcome.Ok? && x == Tagged(rs[i]);
      var k := DeliveredFrom(one, tokens, order, i);
    }
    forall k | 1 <= k < |tokens| && one(tokens[k]).outcome.Ok?
      ensures Tagged(one(tokens[k])) in s
    {
      var i := DeliveredAt(one, tokens, order, k);
    }
  }

  /** The i-th delivered result is that of the later token k. */
  lemma DeliveredFrom(one: Sender, tokens: seq<Bytes>, order: seq<nat>, i: nat) returns (k: nat)
    requires |tokens| > 0 && IsOrder(order, |tokens| - 1) && i < |tokens| - 1
    ensures 1 <= k < |tokens| && Results(one, tokens[1..], order)[i] == one(tokens[k])
  {
    k := order[i] + 1;
  }

  /** The later token k's result is delivered, at some position i. */
  lemma DeliveredAt(one: Sender, tokens: seq<Bytes>, order: seq<nat>, k: nat) returns (i: nat)
    requires |tokens| > 0 && IsOrder(order, |tokens| - 1) && 1 <= k < |tokens|
    ensures i < |tokens| - 1 && Results(one, tokens[1..], order)[i] == one(tokens[k])
  {
    assert k - 1 in order;
    i :| 0 <= i < |order| && order[i] == k - 1;
  }

}
