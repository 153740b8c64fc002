/**
 Rewriting of upstream responses: decode the envelope, decode the payload by its declared type,
 blank what must not leave the proxy, and encode everything again.

 The layouts of the node's types are codec parameters, held to one law only: decoding what was
 encoded gives the value back with nothing left over. Nothing is assumed in the other direction,
 so non-canonical encodings are allowed. The opaque codec is the proxy's own and is concrete.
 */
module Rewrite {
  import opened Prelude

  // ---------------------------------------------------------------- data

  datatype ErrorCode = NoError | FunctionDisabled | InternalError | UnsupportedRequest | BadRequest | Other(code: nat)

  datatype ResponseType =
    | BlockHeaderV1 | BlockHeader | BlockBodyV1 | BlockBody
    | ApprovalsHashesV1 | ApprovalsHashes
    | BlockSignaturesV1 | BlockSignatures
    | Deploy | Transaction
    | ExecutionResultV1 | ExecutionResult | WasmV1Result
    | Transfers | FinalizedDeployApprovals | FinalizedApprovals
    | BlockWithSignatures | TransactionWithExecutionInfo
    | PeersMap | LastProgress | ReactorState | NetworkName
    | ConsensusValidatorChanges | BlockSynchronizerStatus | AvailableBlockRange
    | NextUpgrade | ConsensusStatus | ChainspecRawBytes | Uptime
    | HighestBlockSequenceCheckResult | SpeculativeExecutionResult
    | GlobalStateQueryResult | StoredValues | GetTrieFullResult
    | NodeStatusInfo | DictionaryQueryResult | BalanceResponse | Reward | ProtocolVersion
    | ContractPackageWithProof | ContractInformation | AccountInformation
    | PackageWithProof | AddressableEntityInformation

  /** The payloads the proxy copies through without looking inside. */
  predicate IsOpaque(t: ResponseType) {
    t.ApprovalsHashesV1? || t.ApprovalsHashes? || t.WasmV1Result? || t.HighestBlockSequenceCheckResult?
  }

  datatype Response = Response(error: ErrorCode, typeTag: Option<byte>, payload: Bytes)

  function NewError(code: ErrorCode): Response {
    Response(code, None, [])
  }

  datatype NodeStatus<S> = NodeStatus(peers: map<string, string>, rest: S)

  datatype Envelope = WithRequest(request: Bytes, response: Response) | Plain(response: Response)

  datatype RewriteError = Decode | Encode | UnknownTypeTag(tag: byte) | MissingTypeTag

  function ErrorCodeOf(error: RewriteError): ErrorCode {
    if error.UnknownTypeTag? then UnsupportedRequest else InternalError
  }

  // ---------------------------------------------------------------- codecs

  datatype Codec<!T> = Codec(decode: Bytes -> Option<(T, Bytes)>, encode: T -> Option<Bytes>)

  ghost predicate Lawful<T(!new)>(codec: Codec<T>) {
    forall v: T :: codec.encode(v).Some? ==> codec.decode(codec.encode(v).value) == Some((v, []))
  }

  /** `V` stands for the values of all node types but the status, `S` for the status without its peers. */
  datatype Codecs<!V, !S> = Codecs(
    withRequest: Codec<(Response, Bytes)>,
    plain: Codec<Response>,
    nodeStatus: Codec<NodeStatus<S>>,
    typed: ResponseType -> Codec<V>,
    typeOf: byte -> Option<ResponseType>,
    tagOf: ResponseType -> byte
  )

  ghost predicate AllLawful<V(!new), S(!new)>(c: Codecs<V, S>) {
    && Lawful(c.withRequest) && Lawful(c.plain) && Lawful(c.nodeStatus)
    && (forall t :: Lawful(c.typed(t)))
    && (forall t :: c.typeOf(c.tagOf(t)) == Some(t))
  }

  const OPAQUE: Codec<Bytes> := Codec((b: Bytes) => Some((b, [])), (b: Bytes) => Some(b))

  /** A whole-input decode: leftover bytes are an error. */
  function DecodeAll<T>(codec: Codec<T>, bytes: Bytes): Result<T, RewriteError> {
    match codec.decode(bytes)
    case None => Err(Decode)
    case Some((v, rest)) => if rest == [] then Ok(v) else Err(Decode)
  }

  function EncodeAll<T>(codec: Codec<T>, v: T): Result<Bytes, RewriteError> {
    match codec.encode(v)
    case None => Err(Encode)
    case Some(bytes) => Ok(bytes)
  }

  // ---------------------------------------------------------------- the proxy's functions

  function ParseEnvelope<V, S>(c: Codecs<V, S>, bytes: Bytes): Result<Envelope, RewriteError> {
    match c.withRequest.decode(bytes)
    case Some(((response, request), rest)) => if rest == [] then Ok(WithRequest(request, response)) else Err(Decode)
    case None =>
      match DecodeAll(c.plain, bytes)
      case Err(e) => Err(e)
      case Ok(response) => Ok(Plain(response))
  }

  function SerializeEnvelope<V, S>(c: Codecs<V, S>, envelope: Envelope): Result<Bytes, RewriteError> {
    match envelope
    case WithRequest(request, response) => EncodeAll(c.withRequest, (response, request))
    case Plain(response) => EncodeAll(c.plain, response)
  }

  function RoundtripPayload<T>(codec: Codec<T>, payload: Bytes): Result<Bytes, RewriteError> {
    match DecodeAll(codec, payload)
    case Err(e) => Err(e)
    case Ok(v) => EncodeAll(codec, v)
  }

  function SanitizeNodeStatus<S>(codec: Codec<NodeStatus<S>>, payload: Bytes): Result<Bytes, RewriteError> {
    match DecodeAll(codec, payload)
    case Err(e) => Err(e)
    case Ok(status) => EncodeAll(codec, status.(peers := map[]))
  }

  function FromRawBytes<V, S>(c: Codecs<V, S>, t: ResponseType, payload: Result<Bytes, RewriteError>): Result<Response, RewriteError> {
    match payload
    case Err(e) => Err(e)
    case Ok(bytes) => Ok(Response(NoError, Some(c.tagOf(t)), bytes))
  }

  function RewritePayload<V, S>(c: Codecs<V, S>, t: ResponseType, payload: Bytes): Result<Response, RewriteError> {
    if t.PeersMap? then Ok(NewError(FunctionDisabled))
    else if t.NodeStatusInfo? then FromRawBytes(c, t, SanitizeNodeStatus(c.nodeStatus, payload))
    else if IsOpaque(t) then FromRawBytes(c, t, RoundtripPayload(OPAQUE, payload))
    else FromRawBytes(c, t, RoundtripPayload(c.typed(t), payload))
  }

  function RewriteResponse<V, S>(c: Codecs<V, S>, response: Response): Result<Response, RewriteError> {
    if !response.error.NoError? then Ok(response)
    else
      match response.typeTag
      case None => if response.payload == [] then Ok(response) else Err(MissingTypeTag)
      case Some(tag) =>
        match c.typeOf(tag)
        case None => Err(UnknownTypeTag(tag))
        case Some(t) => RewritePayload(c, t, response.payload)
  }

  function RewriteBytes<V, S>(c: Codecs<V, S>, bytes: Bytes): Result<Bytes, RewriteError> {
    match ParseEnvelope(c, bytes)
    case Err(e) => Err(e)
    case Ok(envelope) =>
      match RewriteResponse(c, envelope.response)
      case Err(e) => Err(e)
      case Ok(response) => SerializeEnvelope(c, envelope.(response := response))
  }

  function BuildErrorResponse<V, S>(c: Codecs<V, S>, code: ErrorCode, request: Bytes): Result<Bytes, RewriteError> {
    EncodeAll(c.withRequest, (NewError(code), request))
  }

  /** What goes back to the client once upstream's `bytes` have been read in answer to `request`. */
  function Forwarded<V, S>(c: Codecs<V, S>, request: Bytes, bytes: Bytes): Result<Bytes, RewriteError> {
    match RewriteBytes(c, bytes)
    case Ok(rewritten) => Ok(rewritten)
    case Err(e) => BuildErrorResponse(c, ErrorCodeOf(e), request)
  }

  // ---------------------------------------------------------------- what a response means

  /** The value a response carries once every layer has been decoded. */
  datatype Meaning<V, S> =
    | NoSuccess(response: Response)
    | NoContent
    | PeersList(bytes: Bytes)
    | Status(status: NodeStatus<S>)
    | Raw(t: ResponseType, bytes: Bytes)
    | Typed(t: ResponseType, value: V)

  ghost predicate Means<V(!new), S(!new)>(c: Codecs<V, S>, r: Response, m: Meaning<V, S>) {
    match m
    case NoSuccess(response) => r == response && r.error != NoError
    case NoContent => r == Response(NoError, None, [])
    case _ =>
      && r.error == NoError && r.typeTag.Some?
      && match m
         case PeersList(bytes) => c.typeOf(r.typeTag.value) == Some(PeersMap) && r.payload == bytes
         case Status(status) =>
           c.typeOf(r.typeTag.value) == Some(NodeStatusInfo) && c.nodeStatus.decode(r.payload) == Some((status, []))
         case Raw(t, bytes) => IsOpaque(t) && c.typeOf(r.typeTag.value) == Some(t) && r.payload == bytes
         case Typed(t, value) =>
           && !IsOpaque(t) && !t.PeersMap? && !t.NodeStatusInfo?
           && c.typeOf(r.typeTag.value) == Some(t) && c.typed(t).decode(r.payload) == Some((value, []))
  }

  /** What the proxy is meant to do, said on values: no peers list, no peers in a status, all else kept. */
  function Cleaned<V, S>(m: Meaning<V, S>): Meaning<V, S> {
    match m
    case PeersList(_) => NoSuccess(NewError(FunctionDisabled))
    case Status(status) => Status(status.(peers := map[]))
    case _ => m
  }

  lemma {:induction false} MeaningIsUnique<V(!new), S(!new)>(c: Codecs<V, S>, r: Response, m: Meaning<V, S>, m': Meaning<V, S>)
    requires Means(c, r, m) && Means(c, r, m')
    ensures m == m'
  {
  }

  /** Can this meaning be encoded as the payload of a response? */
  predicate Expressible<V, S>(c: Codecs<V, S>, m: Meaning<V, S>) {
    match m
    case Status(status) => c.nodeStatus.encode(status).Some?
    case Typed(t, value) => c.typed(t).encode(value).Some?
    case _ => true
  }

  /** The response that carries it. */
  function Expressed<V, S>(c: Codecs<V, S>, m: Meaning<V, S>): Response
    requires Expressible(c, m)
  {
    match m
    case NoSuccess(response) => response
    case NoContent => Response(NoError, None, [])
    case PeersList(bytes) => Response(NoError, Some(c.tagOf(PeersMap)), bytes)
    case Status(status) => Response(NoError, Some(c.tagOf(NodeStatusInfo)), c.nodeStatus.encode(status).value)
    case Raw(t, bytes) => Response(NoError, Some(c.tagOf(t)), bytes)
    case Typed(t, value) => Response(NoError, Some(c.tagOf(t)), c.typed(t).encode(value).value)
  }

  /**
   What rewriting does to a response that means something, case by case: errors and empty successes are
   kept, a peers list becomes an error, a status loses its peers, opaque payloads are copied and all
   others encoded afresh; only an encoding can fail.
   */
  lemma {:induction false} RewriteByMeaning<V(!new), S(!new)>(c: Codecs<V, S>, r: Response, m: Meaning<V, S>)
    requires Means(c, r, m)
    ensures match m
            case NoSuccess(_) => RewriteResponse(c, r) == Ok(r)
            case NoContent => RewriteResponse(c, r) == Ok(r)
            case PeersList(_) => RewriteResponse(c, r) == Ok(Response(FunctionDisabled, None, []))
            case Status(status) => RewriteResponse(c, r) == Encoded(c, NodeStatusInfo, c.nodeStatus.encode(NodeStatus(map[], status.rest)))
            case Raw(t, bytes) => RewriteResponse(c, r) == Encoded(c, t, Some(bytes))
            case Typed(t, value) => RewriteResponse(c, r) == Encoded(c, t, c.typed(t).encode(value))
  {
  }

  /** A success of type `t` with this payload, if it could be encoded. */
  function Encoded<V, S>(c: Codecs<V, S>, t: ResponseType, payload: Option<Bytes>): Result<Response, RewriteError> {
    match payload
    case None => Err(Encode)
    case Some(bytes) => Ok(Response(NoError, Some(c.tagOf(t)), bytes))
  }

  /** In short: cleaning is all that rewriting does to a meaning... */
  lemma {:induction false} RewriteOfMeaning<V(!new), S(!new)>(c: Codecs<V, S>, r: Response, m: Meaning<V, S>)
    requires Means(c, r, m)
    ensures RewriteResponse(c, r).Ok? <==> Expressible(c, Cleaned(m))
    ensures RewriteResponse(c, r).Ok? ==> RewriteResponse(c, r).value == Expressed(c, Cleaned(m))
  {
  }

  /** ... and a response that means nothing is not rewritten at all. */
  lemma {:induction false} RewrittenMeansSomething<V(!new), S(!new)>(c: Codecs<V, S>, r: Response) returns (m: Meaning<V, S>)
    requires RewriteResponse(c, r).Ok?
    ensures Means(c, r, m)
  {
    if r.error != NoError {
      m := NoSuccess(r);
    } else if r.typeTag.None? {
      m := NoContent;
    } else {
      var t := c.typeOf(r.typeTag.value).value;
      if t.PeersMap? {
        m := PeersList(r.payload);
      } else if t.NodeStatusInfo? {
        m := Status(c.nodeStatus.decode(r.payload).value.0);
      } else if IsOpaque(t) {
        m := Raw(t, r.payload);
      } else {
        m := Typed(t, c.typed(t).decode(r.payload).value.0);
      }
    }
  }

  /** A cleaned meaning survives being encoded. */
  lemma {:induction false} ExpressedMeans<V(!new), S(!new)>(c: Codecs<V, S>, r: Response, m: Meaning<V, S>)
    requires AllLawful(c) && Means(c, r, m) && Expressible(c, Cleaned(m))
    ensures Means(c, Expressed(c, Cleaned(m)), Cleaned(m))
  {
  }

  lemma {:induction false} CleanedTwice<V, S>(m: Meaning<V, S>)
    ensures Cleaned(Cleaned(m)) == Cleaned(m)
  {
  }

  /** Rewriting what was rewritten changes nothing: cleaning twice is cleaning once. */
  lemma {:induction false} RewriteResponseTwice<V(!new), S(!new)>(c: Codecs<V, S>, r: Response)
    requires AllLawful(c) && RewriteResponse(c, r).Ok?
    ensures var r' := RewriteResponse(c, r).value; RewriteResponse(c, r') == Ok(r')
  {
    var m := RewrittenMeansSomething(c, r);
    RewriteOfMeaning(c, r, m);
    ExpressedMeans(c, r, m);
    RewriteOfMeaning(c, Expressed(c, Cleaned(m)), Cleaned(m));
    CleanedTwice(m);
  }
}
