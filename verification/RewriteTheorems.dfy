/** What rewriting does to whole messages, for every message and every choice of lawful codecs. */
module RewriteTheorems {
  import opened Prelude
  import opened Rewrite

  /** The codec of the envelope's own shape reads `bytes` as that envelope. */
  predicate Reads<V, S>(c: Codecs<V, S>, bytes: Bytes, e: Envelope) {
    match e
    case WithRequest(request, response) => c.withRequest.decode(bytes) == Some(((response, request), []))
    case Plain(response) => c.plain.decode(bytes) == Some((response, []))
  }

  /** How `bytes` are taken: as a with-request envelope if they decode as one, otherwise as a plain one. */
  predicate ReadAs<V, S>(c: Codecs<V, S>, bytes: Bytes, e: Envelope) {
    Reads(c, bytes, e) && (e.Plain? ==> c.withRequest.decode(bytes).None?)
  }

  lemma {:induction false} ParseIsReading<V, S>(c: Codecs<V, S>, bytes: Bytes, e: Envelope)
    ensures ParseEnvelope(c, bytes) == Ok(e) <==> ReadAs(c, bytes, e)
  {
  }

  /** The codec of the envelope's own shape writes it as `bytes`. */
  predicate Writes<V, S>(c: Codecs<V, S>, e: Envelope, bytes: Bytes) {
    match e
    case WithRequest(request, response) => c.withRequest.encode((response, request)) == Some(bytes)
    case Plain(response) => c.plain.encode(response) == Some(bytes)
  }

  lemma {:induction false} SerializeIsWriting<V, S>(c: Codecs<V, S>, e: Envelope, bytes: Bytes)
    ensures SerializeEnvelope(c, e) == Ok(bytes) <==> Writes(c, e, bytes)
  {
  }

  /** `e` carries `m`, and `out` is the same envelope around the cleaned version of `m`. */
  ghost predicate CleansTo<V(!new), S(!new)>(c: Codecs<V, S>, e: Envelope, m: Meaning<V, S>, out: Bytes) {
    && Means(c, e.response, m) && Expressible(c, Cleaned(m))
    && Writes(c, e.(response := Expressed(c, Cleaned(m))), out)
  }

  /** Bytes are rewritten exactly when they carry a meaning whose cleaned version encodes, and to that. */
  lemma {:induction false} RewriteIsCleaning<V(!new), S(!new)>(c: Codecs<V, S>, bytes: Bytes, out: Bytes)
    ensures RewriteBytes(c, bytes) == Ok(out) <==>
            exists e, m: Meaning<V, S> :: ReadAs(c, bytes, e) && CleansTo(c, e, m, out)
  {
    if RewriteBytes(c, bytes) == Ok(out) {
      var e := ParseEnvelope(c, bytes).value;
      ParseIsReading(c, bytes, e);
      var m := RewrittenMeansSomething(c, e.response);
      RewriteOfMeaning(c, e.response, m);
      assert CleansTo(c, e, m, out);
    }
    forall e, m: Meaning<V, S> | ReadAs(c, bytes, e) && CleansTo(c, e, m, out)
      ensures RewriteBytes(c, bytes) == Ok(out)
    {
      ParseIsReading(c, bytes, e);
      RewriteOfMeaning(c, e.response, m);
    }
  }

  /** An encoded envelope is read back; the plain one unless its bytes also decode as the other shape. */
  lemma {:induction false} EnvelopeRoundTrip<V(!new), S(!new)>(c: Codecs<V, S>, e: Envelope, out: Bytes)
    requires AllLawful(c) && Writes(c, e, out)
    ensures Reads(c, out, e)
    ensures ReadAs(c, out, e) <==> e.WithRequest? || c.withRequest.decode(out).None?
  {
  }

  /** The same envelope around another response. */
  predicate SameEnvelope(e: Envelope, e': Envelope) {
    e'.WithRequest? == e.WithRequest? && (e.WithRequest? ==> e'.request == e.request)
  }

  /** What a response that meant `m` means once it is rewritten. */
  ghost predicate Kept<V(!new), S(!new)>(c: Codecs<V, S>, m: Meaning<V, S>, r: Response) {
    if m.PeersList? then r == Response(FunctionDisabled, None, [])
    else if m.Status? then Means(c, r, Status(NodeStatus(map[], m.status.rest)))
    else Means(c, r, m)
  }

  /** Cleaned bytes read as the same envelope, and what it carries is kept. */
  lemma {:induction false} CleanedIsKept<V(!new), S(!new)>(c: Codecs<V, S>, e: Envelope, m: Meaning<V, S>, out: Bytes)
      returns (e': Envelope)
    requires AllLawful(c) && CleansTo(c, e, m, out)
    ensures Reads(c, out, e') && SameEnvelope(e, e') && Kept(c, m, e'.response) && Means(c, e'.response, Cleaned(m))
    ensures ReadAs(c, out, e') <==> e.WithRequest? || c.withRequest.decode(out).None?
  {
    e' := e.(response := Expressed(c, Cleaned(m)));
    ExpressedMeans(c, e.response, m);
    EnvelopeRoundTrip(c, e', out);
  }

  /**
   Correctness: the output has the input's envelope shape and echoes the same request; it carries the
   input's value and type, except that a peers list has become the error FunctionDisabled and a node
   status has lost its peers and nothing else.
   */
  lemma {:induction false} RewriteKeepsMeaning<V(!new), S(!new)>(c: Codecs<V, S>, bytes: Bytes)
      returns (e: Envelope, m: Meaning<V, S>, e': Envelope)
    requires AllLawful(c) && RewriteBytes(c, bytes).Ok?
    ensures ReadAs(c, bytes, e) && Means(c, e.response, m)
    ensures Reads(c, RewriteBytes(c, bytes).value, e') && SameEnvelope(e, e') && Kept(c, m, e'.response)
    ensures ReadAs(c, RewriteBytes(c, bytes).value, e') <==>
            e.WithRequest? || c.withRequest.decode(RewriteBytes(c, bytes).value).None?
  {
    var out := RewriteBytes(c, bytes).value;
    RewriteIsCleaning(c, bytes, out);
    e, m :| ReadAs(c, bytes, e) && CleansTo(c, e, m, out);
    e' := CleanedIsKept(c, e, m, out);
  }

  /**
   Idempotence: rewriting rewritten bytes succeeds and returns the same bytes, for every with-request
   envelope, and for a plain one whose bytes do not decode as a with-request envelope too.
   */
  lemma {:induction false} RewriteTwice<V(!new), S(!new)>(c: Codecs<V, S>, bytes: Bytes, out: Bytes)
    requires AllLawful(c) && RewriteBytes(c, bytes) == Ok(out)
    requires c.withRequest.decode(bytes).Some? || c.withRequest.decode(out).None?
    ensures RewriteBytes(c, out) == Ok(out)
  {
    var e := ParseEnvelope(c, bytes).value;
    var response := RewriteResponse(c, e.response).value;
    var e' := e.(response := response);
    EnvelopeRoundTrip(c, e', out);
    ParseIsReading(c, out, e');
    RewriteResponseTwice(c, e.response);
  }

  /** An error reply says its code and echoes the request it answers, and rewriting leaves it alone. */
  lemma {:induction false} ErrorReplyIsStable<V(!new), S(!new)>(c: Codecs<V, S>, code: ErrorCode, request: Bytes, out: Bytes)
    requires AllLawful(c) && code != NoError
    ensures BuildErrorResponse(c, code, request) == Ok(out) <==>
            c.withRequest.encode((Response(code, None, []), request)) == Some(out)
    ensures BuildErrorResponse(c, code, request) == Ok(out) ==>
              && ReadAs(c, out, WithRequest(request, Response(code, None, [])))
              && RewriteBytes(c, out) == Ok(out)
  {
  }

  /** Nothing about the node's peers can be learned from this meaning. */
  predicate PeersHidden<V, S>(m: Meaning<V, S>) {
    !m.PeersList? && (m.Status? ==> m.status.peers == map[])
  }

  /** A success that declares a type the proxy does not know. */
  ghost predicate DeclaresUnknownType<V(!new), S(!new)>(c: Codecs<V, S>, bytes: Bytes) {
    exists e :: ReadAs(c, bytes, e) && e.response.error == NoError &&
                e.response.typeTag.Some? && c.typeOf(e.response.typeTag.value) == None
  }

  /** The code that answers a response which cannot be rewritten. */
  lemma {:induction false} FailureCode<V(!new), S(!new)>(c: Codecs<V, S>, bytes: Bytes)
    requires RewriteBytes(c, bytes).Err?
    ensures ErrorCodeOf(RewriteBytes(c, bytes).error) ==
            if DeclaresUnknownType(c, bytes) then UnsupportedRequest else InternalError
  {
    forall e ensures ParseEnvelope(c, bytes) == Ok(e) <==> ReadAs(c, bytes, e) {
      ParseIsReading(c, bytes, e);
    }
    if ParseEnvelope(c, bytes).Ok? {
      var e := ParseEnvelope(c, bytes).value;
      assert ReadAs(c, bytes, e);
    }
  }

  /**
   What `out` must be, sent on in answer to `request` when upstream's answer was `bytes`: the cleaned
   answer in its own envelope if there is one, else an error that echoes the request.
   */
  ghost predicate AnswerFor<V(!new), S(!new)>(c: Codecs<V, S>, request: Bytes, bytes: Bytes, out: Bytes, e: Envelope) {
    && Reads(c, out, e)
    && (forall e0, m: Meaning<V, S>, cleaned ::
          ReadAs(c, bytes, e0) && CleansTo(c, e0, m, cleaned) ==>
            out == cleaned && SameEnvelope(e0, e) && Kept(c, m, e.response))
    && ((forall e0, m: Meaning<V, S>, cleaned :: !(ReadAs(c, bytes, e0) && CleansTo(c, e0, m, cleaned))) ==>
          e == WithRequest(request, Response(
                 if DeclaresUnknownType(c, bytes) then UnsupportedRequest else InternalError, None, [])))
  }

  /** `CleansTo` is a function of the bytes. */
  lemma {:induction false} CleansToIsUnique<V(!new), S(!new)>(
    c: Codecs<V, S>, bytes: Bytes, e: Envelope, m: Meaning<V, S>, out: Bytes,
    e': Envelope, m': Meaning<V, S>, out': Bytes)
    requires ReadAs(c, bytes, e) && CleansTo(c, e, m, out) && ReadAs(c, bytes, e') && CleansTo(c, e', m', out')
    ensures e == e' && m == m' && out == out'
  {
    MeaningIsUnique(c, e.response, m, m');
  }

  /** What is sent on is the answer that is due, and it hides the peers. */
  lemma {:induction false} ForwardedIsDue<V(!new), S(!new)>(c: Codecs<V, S>, request: Bytes, bytes: Bytes, out: Bytes)
      returns (e: Envelope)
    requires AllLawful(c) && Forwarded(c, request, bytes) == Ok(out)
    ensures AnswerFor(c, request, bytes, out, e)
    ensures exists m: Meaning<V, S> :: Means(c, e.response, m)
    ensures forall m: Meaning<V, S> :: Means(c, e.response, m) ==> PeersHidden(m)
  {
    var cleaned: Meaning<V, S>;
    forall o ensures RewriteBytes(c, bytes) == Ok(o) <==>
                     exists e, m: Meaning<V, S> :: ReadAs(c, bytes, e) && CleansTo(c, e, m, o)
    {
      RewriteIsCleaning(c, bytes, o);
    }
    if RewriteBytes(c, bytes).Ok? {
      assert RewriteBytes(c, bytes) == Ok(out);
      var e0, m: Meaning<V, S> :| ReadAs(c, bytes, e0) && CleansTo(c, e0, m, out);
      e := CleanedIsKept(c, e0, m, out);
      cleaned := Cleaned(m);
      forall e1, m1: Meaning<V, S>, out1 | ReadAs(c, bytes, e1) && CleansTo(c, e1, m1, out1)
        ensures e1 == e0 && m1 == m && out1 == out
      {
        CleansToIsUnique(c, bytes, e0, m, out, e1, m1, out1);
      }
    } else {
      var code := ErrorCodeOf(RewriteBytes(c, bytes).error);
      FailureCode(c, bytes);
      ErrorReplyIsStable(c, code, request, out);
      e, cleaned := WithRequest(request, Response(code, None, [])), NoSuccess(Response(code, None, []));
    }
    assert Means(c, e.response, cleaned);
    forall m: Meaning<V, S> | Means(c, e.response, m) ensures PeersHidden(m) {
      MeaningIsUnique(c, e.response, m, cleaned);
    }
  }

  /** And something is sent on unless the cleaned answer is missing and the error cannot be encoded either. */
  lemma {:induction false} ForwardedFailsIff<V(!new), S(!new)>(c: Codecs<V, S>, request: Bytes, bytes: Bytes)
    ensures Forwarded(c, request, bytes).Err? <==>
            && RewriteBytes(c, bytes).Err?
            && c.withRequest.encode((Response(
                 if DeclaresUnknownType(c, bytes) then UnsupportedRequest else InternalError, None, []), request)) == None
  {
    if RewriteBytes(c, bytes).Err? {
      FailureCode(c, bytes);
    }
  }

  /**
   Which payloads are copied raw: those of four types, whatever the bytes. The payload of any other type
   must decode, or the response is not rewritten.
   */
  lemma {:induction false} CopiedTypes<V, S>(c: Codecs<V, S>, t: ResponseType, tag: byte, payload: Bytes)
    requires c.typeOf(tag) == Some(t)
    ensures var result := RewriteResponse(c, Response(NoError, Some(tag), payload));
            if t == ApprovalsHashesV1 || t == ApprovalsHashes || t == WasmV1Result || t == HighestBlockSequenceCheckResult
            then result == Ok(Response(NoError, Some(c.tagOf(t)), payload))
            else if t == PeersMap then result == Ok(Response(FunctionDisabled, None, []))
            else if t == NodeStatusInfo then c.nodeStatus.decode(payload) == None ==> result == Err(Decode)
            else c.typed(t).decode(payload) == None ==> result == Err(Decode)
  {
  }

  /** The opaque codec obeys the law the others are assumed to obey. */
  lemma {:induction false} OpaqueIsLawful(payload: Bytes)
    ensures Lawful(OPAQUE)
    ensures RoundtripPayload(OPAQUE, payload) == Ok(payload)
  {
  }

  // ---------------------------------------------------------------- the plain envelope is not idempotent

  const DISABLED := NewError(FunctionDisabled)
  const EMPTY := Response(NoError, None, [])

  /** Codecs whose two envelope formats overlap: [7] decodes as both. */
  function Overlapping<V, S>(base: Codecs<V, S>): Codecs<V, S> {
    base.(
      withRequest := Codec(
        (b: Bytes) => if b == [7] || b == [8] then Some(((EMPTY, []), [])) else None,
        (v: (Response, Bytes)) => if v == (EMPTY, []) then Some([8]) else None),
      plain := Codec(
        (b: Bytes) =>
          if b == [7] then Some((DISABLED, []))
          else if b == [6] then Some((Response(NoError, Some(base.tagOf(PeersMap)), []), []))
          else None,
        (r: Response) => if r == DISABLED then Some([7]) else None))
  }

  /** So the condition for plain envelopes is needed: a withheld peers list comes back as a success. */
  lemma {:induction false} OverlapBreaksIdempotence<V(!new), S(!new)>(base: Codecs<V, S>)
    requires AllLawful(base)
    ensures AllLawful(Overlapping(base))
    ensures RewriteBytes(Overlapping(base), [6]) == Ok([7])
    ensures RewriteBytes(Overlapping(base), [7]) == Ok([8])
  {
  }
}
