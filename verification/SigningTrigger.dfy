/**
 Beginning to sign an envelope slot (routes/envelope.go, routes/signing.go): whose certificates go out, and which
 calls are made in which order.
 */
module SigningTrigger {
  import opened Common
  import opened Sessions

  datatype Request = Request(
    documentID: string, flow: string, sigFormat: string, signingCertificate: string, authCertificate: string,
    sealID: string)

  datatype BeginInput = BeginInput(
    envelopeID: string, slotID: string, flow: string, sigFormat: string, documentID: string, signingCertificate: string,
    authCertificate: string, signIdentityID: string, sealID: string, postAuthRedirect: string,
    authErrorRedirect: string)

  datatype Call =
    | SlotEligible(envelopeID: string, slotID: string)
    | BeginSigning(input: BeginInput)
    | SetSlotJob(envelopeID: string, slotID: string, jobID: string)

  datatype Reply = MissingCertificate | Relayed(error: string) | NotEligible | Created(jobID: string)

  /** The session's capabilities, none without a session or without captured ones, and the answers of the services. */
  datatype World = World(
    caps: Option<Capabilities>, eligible: Result<bool, string>, begin: BeginInput -> Result<string, string>,
    postAuth: string, authError: string)

  const ESEAL_FLOW := "eparakstsMobileEseal"

  predicate InBrowserFlow(flow: string) {
    flow == "webEid" || flow == "legacyEid"
  }

  /** A signing identity and its certificate. */
  type Credentials = (string, string)

  predicate NamedSeal(seals: seq<Seal>, sealID: string, i: nat) {
    i < |seals| && seals[i].id == sealID && forall j | 0 <= j < i :: seals[j].id != sealID
  }

  /** The captured credentials a redirect flow starts from: the named seal's, the only seal's, or the login's. */
  ghost predicate Captured(req: Request, caps: Option<Capabilities>, cred: Credentials) {
    if caps.None? || InBrowserFlow(req.flow) then cred == ("", "")
    else if req.flow != ESEAL_FLOW then cred == (caps.value.signIdentityID, caps.value.signingCertificate)
    else
      var seals := caps.value.seals;
      && (forall i: nat | NamedSeal(seals, req.sealID, i) :: cred == (seals[i].id, seals[i].certificate))
      && ((forall i | 0 <= i < |seals| :: seals[i].id != req.sealID) ==>
            cred == if req.sealID == "" && |seals| == 1 then (seals[0].id, seals[0].certificate) else ("", ""))
  }

  method CapturedCredentials(req: Request, caps: Option<Capabilities>) returns (cred: Credentials)
    ensures Captured(req, caps, cred)
  {
    var signIdentityID, signingCert := "", "";
    if caps.Some? && !InBrowserFlow(req.flow) {
      if req.flow == ESEAL_FLOW {
        var seals := caps.value.seals;
        if req.sealID == "" && |seals| == 1 {
          signIdentityID, signingCert := seals[0].id, seals[0].certificate;
        }
        for i := 0 to |seals|
          invariant forall j | 0 <= j < i :: seals[j].id != req.sealID
          invariant (signIdentityID, signingCert) ==
                    if req.sealID == "" && |seals| == 1 then (seals[0].id, seals[0].certificate) else ("", "")
        {
          if seals[i].id == req.sealID {
            signIdentityID, signingCert := seals[i].id, seals[i].certificate;
            break;
          }
        }
      } else {
        signIdentityID, signingCert := caps.value.signIdentityID, caps.value.signingCertificate;
      }
    }
    cred := (signIdentityID, signingCert);
  }

  function AuthCertificate(req: Request, caps: Option<Capabilities>): string {
    if req.authCertificate == "" && caps.Some? then caps.value.authCertificate else req.authCertificate
  }

  /** The input of the signing service for this request. */
  ghost predicate InputFor(w: World, id: string, slot: string, req: Request, input: BeginInput) {
    && input.envelopeID == id && input.slotID == slot && input.flow == req.flow && input.sigFormat == req.sigFormat
    && input.documentID == req.documentID && input.sealID == req.sealID
    && input.authCertificate == AuthCertificate(req, w.caps)
    && (exists cred: Credentials :: Captured(req, w.caps, cred) && input.signIdentityID == cred.0
          && input.signingCertificate == if cred.1 == "" then req.signingCertificate else cred.1)
    && (input.postAuthRedirect, input.authErrorRedirect) ==
       if InBrowserFlow(req.flow) then ("", "") else (w.postAuth, w.authError)
  }

  predicate LacksCertificate(req: Request, caps: Option<Capabilities>) {
    InBrowserFlow(req.flow) && (req.signingCertificate == "" || AuthCertificate(req, caps) == "")
  }

  /** The calls made and the reply given, in the only order and with the only outcomes there are. */
  ghost predicate Trace(w: World, id: string, slot: string, req: Request, reply: Reply, calls: seq<Call>) {
    if LacksCertificate(req, w.caps) then calls == [] && reply == MissingCertificate
    else if w.eligible.Err? then calls == [SlotEligible(id, slot)] && reply == Relayed(w.eligible.error)
    else if !w.eligible.value then calls == [SlotEligible(id, slot)] && reply == NotEligible
    else
      && 2 <= |calls| <= 3 && calls[0] == SlotEligible(id, slot) && calls[1].BeginSigning?
      && InputFor(w, id, slot, req, calls[1].input)
      && match w.begin(calls[1].input)
         case Err(e) => |calls| == 2 && reply == Relayed(e)
         case Ok(job) => |calls| == 3 && calls[2] == SetSlotJob(id, slot, job) && reply == Created(job)
  }

  /**
   Signing begins only after an eligible answer, a job is recorded only after a successful beginning and is that job,
   and neither happens twice.
   */
  ghost predicate Guarded(w: World, id: string, slot: string, calls: seq<Call>) {
    && (forall i | 0 <= i < |calls| && calls[i].BeginSigning? ::
          i == 1 && calls[0] == SlotEligible(id, slot) && w.eligible == Ok(true))
    && (forall i | 0 <= i < |calls| && calls[i].SetSlotJob? ::
          && i == 2 && calls[1].BeginSigning? && w.begin(calls[1].input) == Ok(calls[i].jobID)
          && calls[i].envelopeID == id && calls[i].slotID == slot)
  }

  /**
   In-browser flows send the request's own signing certificate with an authentication certificate, no captured identity
   and no return addresses.
   */
  ghost predicate OwnCertificateInBrowser(req: Request, calls: seq<Call>) {
    forall i | 0 <= i < |calls| && calls[i].BeginSigning? && InBrowserFlow(req.flow) ::
      var input := calls[i].input;
      && input.signingCertificate == req.signingCertificate != "" && input.authCertificate != ""
      && input.signIdentityID == "" && input.postAuthRedirect == "" && input.authErrorRedirect == ""
  }

  lemma TraceIsGuarded(w: World, id: string, slot: string, req: Request, reply: Reply, calls: seq<Call>)
    requires Trace(w, id, slot, req, reply, calls)
    ensures Guarded(w, id, slot, calls) && OwnCertificateInBrowser(req, calls) && (reply.Created? <==> |calls| == 3)
  {}

  /** The handler's calls, as `SignEnvelopeSlot` makes them one after another. */
  method CallInTurn(w: World, id: string, slot: string, req: Request) returns (reply: Reply, calls: seq<Call>)
    ensures Trace(w, id, slot, req, reply, calls)
  {
    calls := [];
    var authCert := req.authCertificate;
    if authCert == "" && w.caps.Some? {
      authCert := w.caps.value.authCertificate;
    }
    var cred := CapturedCredentials(req, w.caps);
    var signIdentityID, signingCert := cred.0, cred.1;
    if w.caps.Some? && !InBrowserFlow(req.flow) && authCert == "" {
      authCert := w.caps.value.authCertificate;
    }
    if InBrowserFlow(req.flow) && (req.signingCertificate == "" || authCert == "") {
      return MissingCertificate, calls;
    }
    calls := calls + [SlotEligible(id, slot)];
    if w.eligible.Err? {
      return Relayed(w.eligible.error), calls;
    }
    if !w.eligible.value {
      return NotEligible, calls;
    }
    var postAuthRedirect, authErrorRedirect := "", "";
    if !InBrowserFlow(req.flow) {
      postAuthRedirect, authErrorRedirect := w.postAuth, w.authError;
    }
    if signingCert == "" {
      signingCert := req.signingCertificate;
    }
    var input := BeginInput(id, slot, req.flow, req.sigFormat, req.documentID, signingCert, authCert, signIdentityID,
      req.sealID, postAuthRedirect, authErrorRedirect);
    assert InputFor(w, id, slot, req, input);
    calls := calls + [BeginSigning(input)];
    var job := w.begin(input);
    if job.Err? {
      return Relayed(job.error), calls;
    }
    // Best effort: whether recording worked changes nothing.
    calls := calls + [SetSlotJob(id, slot, job.value)];
    return Created(job.value), calls;
  }

  method SignEnvelopeSlot(w: World, id: string, slot: string, req: Request) returns (reply: Reply, calls: seq<Call>)
    ensures Trace(w, id, slot, req, reply, calls)
    ensures Guarded(w, id, slot, calls) && OwnCertificateInBrowser(req, calls) && (reply.Created? <==> |calls| == 3)
  {
    reply, calls := CallInTurn(w, id, slot, req);
    TraceIsGuarded(w, id, slot, req, reply, calls);
  }

  // What the trace guarantees.

  /**
   What every beginning carries, on the request and the session alone: the request's own authentication certificate, or
   else the captured one; return addresses for a redirect flow and none in the browser; and what it is to sign. The
   request is refused for want of a certificate exactly in the browser, without a signing certificate of its own or
   without an authentication certificate of either kind.
   */
  lemma BeginningCarries(w: World, id: string, slot: string, req: Request, reply: Reply, calls: seq<Call>, k: nat)
    requires Trace(w, id, slot, req, reply, calls)
    ensures reply.MissingCertificate? <==>
            && (req.flow == "webEid" || req.flow == "legacyEid")
            && (|| req.signingCertificate == ""
                || (req.authCertificate == "" && (w.caps.Some? ==> w.caps.value.authCertificate == "")))
    ensures reply.MissingCertificate? ==> calls == []
    ensures k < |calls| && calls[k].BeginSigning? ==>
              var input := calls[k].input;
              && (req.authCertificate != "" ==> input.authCertificate == req.authCertificate)
              && (req.authCertificate == "" && w.caps.Some? ==> input.authCertificate == w.caps.value.authCertificate)
              && (req.authCertificate == "" && w.caps.None? ==> input.authCertificate == "")
              && input.postAuthRedirect == (if req.flow == "webEid" || req.flow == "legacyEid" then "" else w.postAuth)
              && input.authErrorRedirect ==
                 (if req.flow == "webEid" || req.flow == "legacyEid" then "" else w.authError)
              && input.envelopeID == id && input.slotID == slot && input.flow == req.flow
              && input.sigFormat == req.sigFormat && input.documentID == req.documentID && input.sealID == req.sealID
  {}

  /** The seal a request names: the first of that identifier. */
  ghost predicate NamesSeal(req: Request, seals: seq<Seal>, i: nat) {
    i < |seals| && seals[i].id == req.sealID && forall j | 0 <= j < i :: seals[j].id != req.sealID
  }

  /** The identity sent, and the certificate captured with it or, where none was, the request's. */
  ghost predicate SendsPair(req: Request, input: BeginInput, identity: string, certificate: string) {
    && input.signIdentityID == identity
    && input.signingCertificate == if certificate != "" then certificate else req.signingCertificate
  }

  /**
   Whose identity and certificate go out: nobody's captured ones in the browser or without a session's capabilities; the
   login's for any flow but the seal's; for that the named seal's, without a name the only seal's, and else nobody's.
   */
  lemma PairSent(w: World, id: string, slot: string, req: Request, reply: Reply, calls: seq<Call>)
    requires Trace(w, id, slot, req, reply, calls) && |calls| >= 2
    ensures var input := calls[1].input;
            && (req.flow == "webEid" || req.flow == "legacyEid" || w.caps.None? ==> SendsPair(req, input, "", ""))
            && (req.flow != "webEid" && req.flow != "legacyEid" && w.caps.Some? ==>
                  var caps := w.caps.value;
                  if req.flow != "eparakstsMobileEseal" then
                    SendsPair(req, input, caps.signIdentityID, caps.signingCertificate)
                  else
                    && (forall i: nat | NamesSeal(req, caps.seals, i) ::
                          SendsPair(req, input, caps.seals[i].id, caps.seals[i].certificate))
                    && ((forall i | 0 <= i < |caps.seals| :: caps.seals[i].id != req.sealID) ==>
                          if req.sealID == "" && |caps.seals| == 1
                          then SendsPair(req, input, caps.seals[0].id, caps.seals[0].certificate)
                          else SendsPair(req, input, "", "")))
  {
    var cred :| Captured(req, w.caps, cred) && calls[1].input.signIdentityID == cred.0
      && calls[1].input.signingCertificate == if cred.1 == "" then req.signingCertificate else cred.1;
    if w.caps.Some? {
      forall i: nat | NamesSeal(req, w.caps.value.seals, i)
        ensures NamedSeal(w.caps.value.seals, req.sealID, i)
      {
      }
    }
  }

  /** There is exactly one set of captured credentials, and it comes from one place: a seal, the login, or nowhere. */
  lemma CapturedIsOneSource(req: Request, caps: Option<Capabilities>, a: Credentials, b: Credentials)
    requires Captured(req, caps, a) && Captured(req, caps, b)
    ensures a == b
    ensures || a == ("", "")
            || (caps.Some? && req.flow != ESEAL_FLOW && a == (caps.value.signIdentityID, caps.value.signingCertificate))
            || (caps.Some? && req.flow == ESEAL_FLOW && exists s :: s in caps.value.seals && a == (s.id, s.certificate))
    ensures req.flow == ESEAL_FLOW && req.sealID != "" ==> a.0 == "" || a.0 == req.sealID
  {
    if && caps.Some? && req.flow == ESEAL_FLOW
       && exists i :: 0 <= i < |caps.value.seals| && caps.value.seals[i].id == req.sealID {
      var i :| 0 <= i < |caps.value.seals| && caps.value.seals[i].id == req.sealID;
      var first := FirstNamed(caps.value.seals, req.sealID, i);
      assert caps.value.seals[first] in caps.value.seals;
    }
  }

  lemma {:induction false} FirstNamed(seals: seq<Seal>, sealID: string, i: nat) returns (first: nat)
    requires i < |seals| && seals[i].id == sealID
    ensures NamedSeal(seals, sealID, first)
    decreases i
  {
    if j :| 0 <= j < i && seals[j].id == sealID {
      first := FirstNamed(seals, sealID, j);
    } else {
      first := i;
    }
  }

  /**
   The identity and the certificate sent belong together: both captured, or a certificate of the request with no
   identity.
   */
  ghost predicate Together(req: Request, caps: Option<Capabilities>, input: BeginInput) {
    var sent := (input.signIdentityID, input.signingCertificate);
    Captured(req, caps, sent) || sent == ("", req.signingCertificate)
  }

  /** A redirect request that brings no signing certificate sends the captured pair as it was captured. */
  lemma RedirectInput(w: World, id: string, slot: string, req: Request, reply: Reply, calls: seq<Call>)
    requires Trace(w, id, slot, req, reply, calls) && |calls| >= 2 && !InBrowserFlow(req.flow)
    requires req.signingCertificate == ""
    ensures Captured(req, w.caps, (calls[1].input.signIdentityID, calls[1].input.signingCertificate))
    ensures calls[1].input.postAuthRedirect == w.postAuth && calls[1].input.authErrorRedirect == w.authError
  {
    var cred :| Captured(req, w.caps, cred) && calls[1].input.signIdentityID == cred.0
      && calls[1].input.signingCertificate == if cred.1 == "" then req.signingCertificate else cred.1;
    assert cred == (calls[1].input.signIdentityID, calls[1].input.signingCertificate);
  }

  /**
   Exactly when the pair sent belongs together: unless an identity was captured without its certificate and the
   request fills in one of its own.
   */
  lemma TogetherExactly(w: World, id: string, slot: string, req: Request, reply: Reply, calls: seq<Call>,
                        cred: Credentials)
    requires Trace(w, id, slot, req, reply, calls) && |calls| >= 2 && Captured(req, w.caps, cred)
    ensures Together(req, w.caps, calls[1].input) <==> !(cred.0 != "" && cred.1 == "" && req.signingCertificate != "")
  {
    var input := calls[1].input;
    var used :| Captured(req, w.caps, used) && input.signIdentityID == used.0
      && input.signingCertificate == if used.1 == "" then req.signingCertificate else used.1;
    CapturedIsOneSource(req, w.caps, cred, used);
    var sent := (input.signIdentityID, input.signingCertificate);
    if Captured(req, w.caps, sent) {
      CapturedIsOneSource(req, w.caps, cred, sent);
    }
    if sent == cred {
      assert Captured(req, w.caps, sent);
    }
  }

  /** Such a request exists: a captured identity can go out with a certificate it was not captured with. */
  lemma PairCanBeMixed(w: World, id: string, slot: string, reply: Reply, calls: seq<Call>)
    requires w.caps == Some(Capabilities("person", "", "", [], false))
    requires Trace(w, id, slot, Request("doc", "eparakstsMobile", "asice", "card", "", ""), reply, calls)
    requires |calls| >= 2
    ensures calls[1].input.signIdentityID == "person" && calls[1].input.signingCertificate == "card"
  {
    TogetherExactly(w, id, slot, Request("doc", "eparakstsMobile", "asice", "card", "", ""), reply, calls,
      ("person", ""));
  }
}
