/**
 * The `POST` handler of `src/app/api/submit/route.ts`: pick a body parser by
 * content type, validate the application, reject honeypot and short
 * user-agent submissions, then relay the sanitised fields to the spreadsheet
 * script. Every rejection after the content-type check, and every failure
 * inside the handler, is recorded in the shared security monitor.
 */
module Submission {
  import opened Wrappers
  import opened Text
  import ClientIP
  import opened Monitoring
  import opened FormValidation
  import FormValidationProperties
  import Admission

  const InvalidFormData := "invalid_form_data"
  const HoneypotTriggered := "honeypot_triggered"
  const SuspiciousUserAgent := "suspicious_user_agent"
  const SubmissionError := "submission_error"
  const MinUserAgentLength := 10

  /** How the relay `fetch` ends: a 2xx reply, another status, the 15-second
    * abort, or a network failure. */
  datatype Relay = RelayOk | RelayStatus(status: nat) | RelayAborted | RelayFailed

  /** The JSON reply of the handler, by its `code`. */
  datatype Reply =
    | UnsupportedContentType
    | ValidationFailed(details: seq<string>)
    | SpamDetected
    | InvalidRequest
    | ConfigError
    | Timeout
    | SubmissionFailed
    | Submitted

  /** The HTTP status of each reply. */
  function StatusOf(r: Reply): (status: nat)
    ensures status == 200 <==> r == Submitted
    ensures r.UnsupportedContentType? || r.ValidationFailed? || r.InvalidRequest? ==> status == 400
    ensures r == SpamDetected ==> status == 429
    ensures r == Timeout ==> status == 408
    ensures r == ConfigError || r == SubmissionFailed ==> status == 500
  {
    match r
    case UnsupportedContentType => 400
    case ValidationFailed(_) => 400
    case SpamDetected => 429
    case InvalidRequest => 400
    case ConfigError => 500
    case Timeout => 408
    case SubmissionFailed => 500
    case Submitted => 200
  }

  /** What is sent to the spreadsheet script: the sanitised fields, the
    * client address and the user agent. */
  datatype Payload = Payload(fields: map<string, string>, submissionIP: string, userAgent: string)

  /** One run of the handler: the reply, the activity kind it records (if
    * any) and the payload it relays (if it got that far). */
  datatype Handling = Handling(reply: Reply, tracked: Option<string>, sent: Option<Payload>)

  /** `request.headers.get('content-type') || ''`. */
  function ContentType(headers: ClientIP.Headers): string {
    ClientIP.Header(headers, "content-type").GetOr("")
  }

  predicate SupportedContentType(contentType: string) {
    || Contains(contentType, "application/json")
    || Contains(contentType, "multipart/form-data")
    || Contains(contentType, "application/x-www-form-urlencoded")
  }

  /** `body._honeypot || body.website`. */
  function HoneypotField(body: Body): Option<JsValue> {
    if Truthy(Field(body, "_honeypot")) then Field(body, "_honeypot") else Field(body, "website")
  }

  /** The honeypot counts only when it is a string with a non-blank value. */
  predicate HoneypotFilled(body: Body) {
    var f := HoneypotField(body);
    f.Some? && f.value.JsString? && Trim(f.value.s) != []
  }

  /** Every gate before the relay passed: a supported content type, a parsed
    * and valid body, an empty honeypot and a user agent of 10+ characters. */
  predicate GatesPass(headers: ClientIP.Headers, body: Option<Body>, det: Detectors) {
    && SupportedContentType(ContentType(headers))
    && body.Some? && Validated(body.value, det).valid
    && !HoneypotFilled(body.value)
    && |Admission.UserAgent(headers)| >= MinUserAgentLength
  }

  /** Reference definition of the handler. `body` is `None` when the parser
    * throws; `scriptConfigured` says whether the script URL is set. */
  function Handle(headers: ClientIP.Headers, body: Option<Body>, det: Detectors,
                  scriptConfigured: bool, relay: Relay): (h: Handling)
    // the gates, in order, and what each records
    ensures !SupportedContentType(ContentType(headers)) ==>
              h == Handling(UnsupportedContentType, None, None) && StatusOf(h.reply) == 400
    ensures SupportedContentType(ContentType(headers)) && body.Some? && !Validated(body.value, det).valid ==>
              && h == Handling(ValidationFailed(Validated(body.value, det).errors), Some(InvalidFormData), None)
              && StatusOf(h.reply) == 400
    ensures SupportedContentType(ContentType(headers)) && body.Some? && Validated(body.value, det).valid
            && HoneypotFilled(body.value) ==>
              h == Handling(SpamDetected, Some(HoneypotTriggered), None) && StatusOf(h.reply) == 429
    ensures SupportedContentType(ContentType(headers)) && body.Some? && Validated(body.value, det).valid
            && !HoneypotFilled(body.value) && |Admission.UserAgent(headers)| < MinUserAgentLength ==>
              h == Handling(InvalidRequest, Some(SuspiciousUserAgent), None) && StatusOf(h.reply) == 400
    // the exception paths and the relay
    ensures SupportedContentType(ContentType(headers)) && body.None? ==>
              h == Handling(SubmissionFailed, Some(SubmissionError), None) && StatusOf(h.reply) == 500
    ensures GatesPass(headers, body, det) && !scriptConfigured ==>
              h == Handling(ConfigError, None, None) && StatusOf(h.reply) == 500
    ensures GatesPass(headers, body, det) && scriptConfigured ==>
              && h.sent.Some?
              && (relay == RelayOk ==> h.reply == Submitted && h.tracked.None? && StatusOf(h.reply) == 200)
              && (relay == RelayAborted ==>
                    h.reply == Timeout && h.tracked == Some(SubmissionError) && StatusOf(h.reply) == 408)
              && (relay.RelayStatus? || relay == RelayFailed ==>
                    h.reply == SubmissionFailed && h.tracked == Some(SubmissionError) && StatusOf(h.reply) == 500)
    ensures h.tracked.None? <==> h.reply in {UnsupportedContentType, ConfigError, Submitted}
    ensures h.sent.Some? <==> h.reply in {Timeout, Submitted} || (h.reply == SubmissionFailed && body.Some?)
    ensures h.sent.Some? ==>
              && body.Some? && Validated(body.value, det).valid
              && |Admission.UserAgent(headers)| >= MinUserAgentLength
              && h.sent.value == Payload(Validated(body.value, det).sanitizedData.value,
                                         ClientIP.GetClientIP(headers), Admission.UserAgent(headers))
  {
    if !SupportedContentType(ContentType(headers)) then Handling(UnsupportedContentType, None, None)
    else if body.None? then Handling(SubmissionFailed, Some(SubmissionError), None)
    else
      var validation := Validated(body.value, det);
      if !validation.valid then Handling(ValidationFailed(validation.errors), Some(InvalidFormData), None)
      else if HoneypotFilled(body.value) then Handling(SpamDetected, Some(HoneypotTriggered), None)
      else
        var userAgent := Admission.UserAgent(headers);
        if |userAgent| < MinUserAgentLength then Handling(InvalidRequest, Some(SuspiciousUserAgent), None)
        else if !scriptConfigured then Handling(ConfigError, None, None)
        else
          var payload := Payload(validation.sanitizedData.value, ClientIP.GetClientIP(headers), userAgent);
          match relay
          case RelayOk => Handling(Submitted, None, Some(payload))
          case RelayAborted => Handling(Timeout, Some(SubmissionError), Some(payload))
          case _ => Handling(SubmissionFailed, Some(SubmissionError), Some(payload))
  }

  /** The monitor after a handling. */
  function Recorded(m: Monitor, ip: string, h: Handling): Monitor {
    if h.tracked.Some? then Track(m, ip, h.tracked.value) else m
  }

  /** `POST(request)`. */
  method Post(monitor: SecurityMonitor, headers: ClientIP.Headers, body: Option<Body>, det: Detectors,
              scriptConfigured: bool, relay: Relay)
    returns (h: Handling)
    modifies monitor
    ensures h == Handle(headers, body, det, scriptConfigured, relay)
    ensures monitor.State() == Recorded(old(monitor.State()), ClientIP.GetClientIP(headers), h)
  {
    var ip := ClientIP.GetClientIP(headers);
    if !SupportedContentType(ContentType(headers)) {
      return Handling(UnsupportedContentType, None, None);
    }
    if body.None? {
      monitor.TrackSuspiciousActivity(ip, SubmissionError);
      return Handling(SubmissionFailed, Some(SubmissionError), None);
    }

    var validation := ValidateFormData(body.value, det);
    if !validation.valid {
      monitor.TrackSuspiciousActivity(ip, InvalidFormData);
      return Handling(ValidationFailed(validation.errors), Some(InvalidFormData), None);
    }

    if HoneypotFilled(body.value) {
      monitor.TrackSuspiciousActivity(ip, HoneypotTriggered);
      return Handling(SpamDetected, Some(HoneypotTriggered), None);
    }

    var userAgent := Admission.UserAgent(headers);
    if |userAgent| < MinUserAgentLength {
      monitor.TrackSuspiciousActivity(ip, SuspiciousUserAgent);
      return Handling(InvalidRequest, Some(SuspiciousUserAgent), None);
    }

    if !scriptConfigured {
      return Handling(ConfigError, None, None);
    }

    var payload := Payload(validation.sanitizedData.value, ip, userAgent);
    if relay == RelayOk {
      return Handling(Submitted, None, Some(payload));
    }
    monitor.TrackSuspiciousActivity(ip, SubmissionError);
    if relay == RelayAborted {
      return Handling(Timeout, Some(SubmissionError), Some(payload));
    }
    return Handling(SubmissionFailed, Some(SubmissionError), Some(payload));
  }

  /** A submission is accepted only when every gate passed and the relay
    * succeeded, and what it relays is the validated data. */
  lemma SuccessRequiresEveryGate(headers: ClientIP.Headers, body: Option<Body>, det: Detectors,
                                 scriptConfigured: bool, relay: Relay)
    ensures var h := Handle(headers, body, det, scriptConfigured, relay);
      h.reply == Submitted <==>
        && SupportedContentType(ContentType(headers))
        && body.Some? && Validated(body.value, det).valid
        && !HoneypotFilled(body.value)
        && |Admission.UserAgent(headers)| >= MinUserAgentLength
        && scriptConfigured && relay == RelayOk
  {
  }

  /** Whatever the outcome, only fields that passed validation leave the
    * server: a relayed payload carries every required field, no raw HTML
    * special character, and the client's address and user agent. */
  lemma RelayedPayloadIsSanitised(headers: ClientIP.Headers, body: Option<Body>, det: Detectors,
                                  scriptConfigured: bool, relay: Relay)
    requires Handle(headers, body, det, scriptConfigured, relay).sent.Some?
    ensures var p := Handle(headers, body, det, scriptConfigured, relay).sent.value;
      && body.Some? && p.fields == Validated(body.value, det).sanitizedData.value
      && (forall f :: f in RequiredFields ==> f.key in p.fields)
      && FormValidationProperties.AllEscaped(p.fields)
      && p.submissionIP == ClientIP.GetClientIP(headers)
      && |p.userAgent| >= MinUserAgentLength
  {
    FormValidationProperties.ValidFormComplete(body.value, det);
  }

  /** A truthy non-string `_honeypot` hides a filled `website` field. */
  lemma HoneypotShadowed(body: Body)
    requires "_honeypot" in body && body["_honeypot"] == JsOther(true)
    ensures !HoneypotFilled(body)
  {
  }

  /** A filled `website` field is caught when `_honeypot` is absent or falsy. */
  lemma WebsiteHoneypot(body: Body, s: string)
    requires !Truthy(Field(body, "_honeypot"))
    requires "website" in body && body["website"] == JsString(s) && Trim(s) != []
    ensures HoneypotFilled(body)
  {
  }

  /** The replies of the exception paths, a timeout or a failed submission,
    * are exactly the ones that record `submission_error`. */
  lemma FailuresAreRecorded(headers: ClientIP.Headers, body: Option<Body>, det: Detectors,
                            scriptConfigured: bool, relay: Relay)
    ensures var h := Handle(headers, body, det, scriptConfigured, relay);
      h.reply.Timeout? || h.reply.SubmissionFailed? <==> h.tracked == Some(SubmissionError)
  {
    assert InvalidFormData[0] != SubmissionError[0];
    assert HoneypotTriggered[0] != SubmissionError[0];
    assert SuspiciousUserAgent[2] != SubmissionError[2];
  }
}
