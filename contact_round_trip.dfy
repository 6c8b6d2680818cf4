/** The contact form and the contact handler side by side: what the server
    answers to what this client sends, and how the client reads the answer. */
module ContactRoundTrip {
  import opened Wrappers
  import ContactServer
  import opened ContactForm

  /** `JSON.stringify(formData)` as the server reads it: every field present. */
  function ToBody(d: FormData): (b: ContactServer.ContactBody)
    ensures ContactServer.HasRequiredFields(b) <==> ReadyToSend(d)
    ensures ContactServer.Present(b.company) <==> d.company != ""
  {
    ContactServer.ContactBody(Some(d.name), Some(d.email), Some(d.subject), Some(d.message), Some(d.company))
  }

  /** The response the handler sends for each outcome. Its error bodies carry
      free text, not the codes the client matches on. */
  function ServerResponse(o: ContactServer.Outcome): (r: FetchResult)
    ensures r.Response? && r.status == ContactServer.StatusCode(o)
    ensures r.payload.retryAfterSeconds.None? && r.payload.message.None?
  {
    match o
    case HoneypotOk => Response(200, NoPayload)
    case TooMany => Response(429, Payload(Some("Too many requests"), None, None))
    case Missing => Response(400, Payload(Some("Missing required fields"), None, None))
    case Proceed => Response(200, NoPayload)
  }

  /** A form the client agrees to send is never answered 400 by this handler:
      the client's check and the server's check agree. */
  lemma ClientCheckMatchesServer(t: map<string, seq<int>>, d: FormData, ip: Option<string>, now: int)
    requires ReadyToSend(d)
    ensures ContactServer.Decide(t, ToBody(d), ip, now).outcome != ContactServer.Missing
  {
  }

  /** The handler's 429 shows the plain too-many text: it sends no
      `retryAfterSeconds`, so no wait suffix is appended. */
  lemma RateLimitShowsTooMany(text: ContactText)
    ensures var r := ServerResponse(ContactServer.TooMany);
      ErrorMessage(r.status, r.payload, text) == text.tooManyRequests
  {
  }

  /** Were the handler's 400 to reach the client, it would show the generic
      text, because its body does not carry `MISSING_REQUIRED_FIELDS`. */
  lemma ServerMissingReadsAsGeneric(text: ContactText)
    ensures var r := ServerResponse(ContactServer.Missing);
      ErrorMessage(r.status, r.payload, text) == text.generic
  {
  }

  /** A bot that fills the honeypot is told it succeeded, exactly like a
      person whose mail was sent, and the limiter's table is left alone. */
  lemma HoneypotLooksLikeSuccess(t: map<string, seq<int>>, d: FormData, ip: Option<string>, now: int)
    requires d.company != ""
    ensures var dec := ContactServer.Decide(t, ToBody(d), ip, now);
      && ServerResponse(dec.outcome) == ServerResponse(ContactServer.Proceed)
      && dec.table == t
  {
  }
}
