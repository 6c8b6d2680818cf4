/**
 * The `/api/contact` handler of the portfolio's HTTP service: a honeypot
 * short-circuit, an in-memory sliding-window rate limiter keyed by client
 * address, and a required-field check. Mail dispatch is not modelled: the
 * `Proceed` outcome stands for "the mail transport is invoked next".
 */
module ContactServer {
  import opened Wrappers

  /** Width of the sliding window, in milliseconds. */
  const WindowMs: int := 60000
  /** Number of timestamps a key may hold inside one window. */
  const MaxPerWindow: nat := 3
  /** Key used for a request whose client address is absent. */
  const UnknownClient: string := "unknown"

  /** The JSON body of a contact request; an absent field is `None`. */
  datatype ContactBody = ContactBody(
    name: Option<string>,
    email: Option<string>,
    subject: Option<string>,
    message: Option<string>,
    company: Option<string>)

  /** JavaScript truthiness of an optional string field. */
  predicate Present(f: Option<string>) {
    f.Some? && f.value != ""
  }

  predicate HasRequiredFields(b: ContactBody) {
    Present(b.name) && Present(b.email) && Present(b.subject) && Present(b.message)
  }

  /** What the handler does with one request. */
  datatype Outcome =
    | HoneypotOk   // 200 {ok: true}, nothing recorded, no mail
    | TooMany      // 429 {error: 'Too many requests'}
    | Missing      // 400 {error: 'Missing required fields'}
    | Proceed      // the mail is sent, then 200 {ok: true}

  function StatusCode(o: Outcome): (code: int)
    ensures code == 200 <==> o.HoneypotOk? || o.Proceed?
    ensures code == 429 <==> o.TooMany?
    ensures code == 400 <==> o.Missing?
  {
    match o
    case HoneypotOk => 200
    case TooMany => 429
    case Missing => 400
    case Proceed => 200
  }

  /** `req.ip ?? 'unknown'` */
  function ClientKey(ip: Option<string>): (k: string)
    ensures ip.Some? ==> k == ip.value
    ensures k == UnknownClient <==> ip.None? || ip == Some(UnknownClient)
  {
    ip.GetOr(UnknownClient)
  }

  /** `requests.get(key) ?? []` */
  function Lookup(t: map<string, seq<int>>, key: string): seq<int> {
    if key in t then t[key] else []
  }

  /** `history.filter((ts) => now - ts < windowMs)` */
  function Prune(h: seq<int>, now: int): (r: seq<int>)
    ensures |r| <= |h|
    ensures forall ts :: ts in r <==> ts in h && now - ts < WindowMs
  {
    if h == [] then []
    else (if now - h[0] < WindowMs then [h[0]] else []) + Prune(h[1..], now)
  }

  /** The history the limiter inspects for a request from `ip` at `now`. */
  function Recent(t: map<string, seq<int>>, ip: Option<string>, now: int): seq<int> {
    Prune(Lookup(t, ClientKey(ip)), now)
  }

  datatype Decision = Decision(outcome: Outcome, table: map<string, seq<int>>)

  /** The handler as a function of the rate-limit table before the request. */
  function Decide(t: map<string, seq<int>>, b: ContactBody, ip: Option<string>, now: int): (d: Decision)
    ensures d.outcome.HoneypotOk? <==> Present(b.company)
    ensures d.outcome.HoneypotOk? || d.outcome.TooMany? ==> d.table == t
    ensures d.outcome.Proceed? ==> HasRequiredFields(b)
    ensures forall k :: k != ClientKey(ip) ==> Lookup(d.table, k) == Lookup(t, k)
    ensures d.outcome.Missing? || d.outcome.Proceed? ==>
      var h := Lookup(d.table, ClientKey(ip)); |h| > 0 && h[|h| - 1] == now
  {
    if Present(b.company) then Decision(HoneypotOk, t)
    else
      var history := Recent(t, ip, now);
      if |history| >= MaxPerWindow then Decision(TooMany, t)
      else
        var t' := t[ClientKey(ip) := history + [now]];
        if HasRequiredFields(b) then Decision(Proceed, t') else Decision(Missing, t')
  }

  /** A stored history: non-empty, at most `MaxPerWindow` long, and every
      entry inside the window that ends at its last (most recent write) entry. */
  predicate WellFormedHistory(h: seq<int>) {
    && 1 <= |h| <= MaxPerWindow
    && forall i :: 0 <= i < |h| ==> h[|h| - 1] - h[i] < WindowMs
  }

  predicate ValidTable(t: map<string, seq<int>>) {
    forall k :: k in t ==> WellFormedHistory(t[k])
  }

  /** The module-level `requests` map and the handler that updates it. */
  class ContactEndpoint {
    var requests: map<string, seq<int>>

    ghost predicate Valid()
      reads this
    {
      ValidTable(requests)
    }

    constructor ()
      ensures Valid() && requests == map[]
    {
      requests := map[];
    }

    method HandleContact(body: ContactBody, ip: Option<string>, now: int) returns (outcome: Outcome)
      requires Valid()
      modifies this
      ensures Valid()
      ensures Decision(outcome, requests) == Decide(old(requests), body, ip, now)
      ensures outcome.HoneypotOk? || outcome.TooMany? ==> requests == old(requests)
      ensures outcome.Missing? || outcome.Proceed? ==>
        requests == old(requests)[ClientKey(ip) := Recent(old(requests), ip, now) + [now]]
    {
      if Present(body.company) {
        return HoneypotOk;
      }
      var key := ClientKey(ip);
      var history := Prune(Lookup(requests, key), now);
      if |history| >= MaxPerWindow {
        return TooMany;
      }
      history := history + [now];
      DecidePreservesValid(requests, body, ip, now);
      requests := requests[key := history];
      if !HasRequiredFields(body) {
        return Missing;
      }
      return Proceed;
    }
  }

  /** A handled request never breaks the table invariant. */
  lemma DecidePreservesValid(t: map<string, seq<int>>, b: ContactBody, ip: Option<string>, now: int)
    requires ValidTable(t)
    ensures ValidTable(Decide(t, b, ip, now).table)
  {
    var d := Decide(t, b, ip, now);
    if d.outcome.Missing? || d.outcome.Proceed? {
      var h := Recent(t, ip, now) + [now];
      forall i | 0 <= i < |h|
        ensures h[|h| - 1] - h[i] < WindowMs
      {
        if i < |h| - 1 {
          assert h[i] in Recent(t, ip, now);
        }
      }
      assert WellFormedHistory(h);
    }
  }
}
