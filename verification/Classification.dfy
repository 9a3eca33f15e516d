/** How an upstream answer is classified: whether to fail over, whom to blame, and whether only the key is at fault. */
module Classification {
  datatype Class =
    | NoFault | ClientInvalid | TargetMisconfigured | AuthInvalid | PermissionDenied | PaymentRequired | RateLimited
    | Transport | UpstreamTransient | ModelUnsupported | StreamInterrupted | UnknownFault

  datatype Decision = Decision(kind: Class, failover: bool, penalize: bool, invalidateCredential: bool,
                               unsupported: bool, retryAfter: int)

  function Blame(kind: Class): Decision { Decision(kind, true, true, false, false, 0) }

  /** `saysUnsupported` is whether the body names an unsupported model; `retryAfter` is the parsed header. */
  function Classify(status: int, saysUnsupported: bool, requestError: bool, committed: bool,
      retryAfter: int): Decision {
    if committed then Decision(StreamInterrupted, false, true, false, false, 0)
    else if requestError then Blame(Transport)
    else if 200 <= status < 300 then Decision(NoFault, false, false, false, false, 0)
    else if status == 401 then Decision(AuthInvalid, true, false, true, false, 0)
    else if status == 403 then Blame(PermissionDenied)
    else if status == 402 then Blame(PaymentRequired)
    else if saysUnsupported then Decision(ModelUnsupported, true, false, false, true, 0)
    else if status == 404 then Blame(TargetMisconfigured)
    else if status == 429 then Blame(RateLimited).(retryAfter := retryAfter)
    else if status == 408 || status == 425 || status >= 500 then Blame(UpstreamTransient)
    else if 400 <= status < 500 then Decision(ClientInvalid, false, false, false, false, 0)
    else Decision(UnknownFault, false, false, false, false, 0)
  }

  function ClassifyInvalidSuccess(saysUnsupported: bool): Decision {
    if saysUnsupported then Decision(ModelUnsupported, true, false, false, true, 0) else Blame(UpstreamTransient)
  }

  /** The status alone is held against the site: 402, 403, 404, 408, 425, 429 and every server error. */
  predicate Blameworthy(status: int) { status in {402, 403, 404, 408, 425, 429} || status >= 500 }

  /** What an answer is taken for, flag by flag. A success asks for nothing; a rejected key is the key's affair; an
      unsupported model moves on without blame, unless the status is one of 401, 402 and 403; blame moves on too; only a
      429 passes on its Retry-After, and everything else stays where it is. */
  lemma AnswersAre(status: int, saysUnsupported: bool, retryAfter: int)
    ensures var d := Classify(status, saysUnsupported, false, false, retryAfter);
      var success := 200 <= status < 300;
      var unsupported := !success && saysUnsupported && status !in {401, 402, 403};
      && d.unsupported == unsupported
      && d.penalize == (!success && !unsupported && Blameworthy(status))
      && d.invalidateCredential == (status == 401)
      && d.failover == (d.unsupported || d.penalize || status == 401)
      && d.retryAfter == (if status == 429 && !saysUnsupported then retryAfter else 0)
    ensures var kind := Classify(status, saysUnsupported, false, false, retryAfter).kind;
      && (kind == NoFault <==> 200 <= status < 300)
      && (kind == AuthInvalid <==> status == 401) && (kind == PaymentRequired <==> status == 402)
      && (kind == PermissionDenied <==> status == 403)
      && (kind == ModelUnsupported <==>
           !(200 <= status < 300) && saysUnsupported && status !in {401, 402, 403})
      && (!saysUnsupported ==>
           && (kind == TargetMisconfigured <==> status == 404) && (kind == RateLimited <==> status == 429)
           && (kind == UpstreamTransient <==> status in {408, 425} || status >= 500))
  {
  }

  /** A fault of the connection, or of a stream, is held against the site; it moves on unless output was committed. A
      success that is no answer is an unsupported model, if it says so, and the site's fault otherwise. */
  lemma FaultsAre(status: int, saysUnsupported: bool, committed: bool, retryAfter: int)
    ensures var d := Classify(status, saysUnsupported, true, committed, retryAfter);
      d.penalize && d.failover == !committed && !d.unsupported && !d.invalidateCredential && d.retryAfter == 0
    ensures var d := ClassifyInvalidSuccess(saysUnsupported);
      && d.failover && d.unsupported == saysUnsupported && d.penalize == !saysUnsupported
      && d.kind == (if saysUnsupported then ModelUnsupported else UpstreamTransient) && d.retryAfter == 0
  {
  }

  /** Failures that belong to one key: the next key of the same site may still work. */
  predicate CredentialLocal(d: Decision) {
    d.kind == AuthInvalid || d.kind == PermissionDenied || d.kind == PaymentRequired || d.kind == RateLimited
  }

  /** Exactly the answers 401, 402, 403 and 429 are key-local, except a 429 whose body names an unsupported model;
      every key-local failure also allows failover, and nothing fails over once output is committed. */
  lemma KeyLocalAnswers(status: int, saysUnsupported: bool, requestError: bool, committed: bool, retryAfter: int)
    ensures var d := Classify(status, saysUnsupported, requestError, committed, retryAfter);
      && (CredentialLocal(d) <==>
        !committed && !requestError &&
        (status == 401 || status == 402 || status == 403 || (status == 429 && !saysUnsupported)))
      && (CredentialLocal(d) ==> d.failover)
      && (committed ==> !d.failover)
      && (d.kind == NoFault <==> !committed && !requestError && 200 <= status < 300)
  {
  }
}
