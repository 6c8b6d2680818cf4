/** What the contact handler promises about the rate-limit table and the
    order of its checks, stated over `ContactServer.Decide`. */
module RateLimitProperties {
  import opened Wrappers
  import opened ContactServer

  /** A filled honeypot answers 200 and leaves the table exactly as it was. */
  lemma HoneypotLeavesTableUnchanged(t: map<string, seq<int>>, b: ContactBody, ip: Option<string>, now: int)
    requires Present(b.company)
    ensures Decide(t, b, ip, now) == Decision(HoneypotOk, t)
    ensures StatusCode(Decide(t, b, ip, now).outcome) == 200
  {
  }

  /** Pruning keeps an entry exactly when it is younger than the window:
      an entry exactly `WindowMs` old is dropped. */
  lemma PruneKeepsExactlyYounger(h: seq<int>, now: int)
    ensures forall i :: 0 <= i < |h| && now - h[i] < WindowMs ==> h[i] in Prune(h, now)
    ensures forall ts :: ts in Prune(h, now) ==> now - ts < WindowMs
    ensures now - WindowMs !in Prune(h, now)
  {
  }

  /** Pruning a concatenation prunes each part, so relative order is kept. */
  lemma {:induction false} PruneAppend(a: seq<int>, b: seq<int>, now: int)
    ensures Prune(a + b, now) == Prune(a, now) + Prune(b, now)
  {
    if a == [] {
      assert a + b == b;
    } else {
      assert (a + b)[0] == a[0];
      assert (a + b)[1..] == a[1..] + b;
      PruneAppend(a[1..], b, now);
    }
  }

  /** A history whose entries are all inside the window survives pruning whole. */
  lemma {:induction false} PruneKeepsAllRecent(h: seq<int>, now: int)
    requires forall i :: 0 <= i < |h| ==> now - h[i] < WindowMs
    ensures Prune(h, now) == h
  {
    if h != [] {
      PruneKeepsAllRecent(h[1..], now);
    }
  }

  /** The 429 branch is taken exactly when the honeypot is empty and three or
      more recent entries remain; it does not write the table, so the stale
      stored list stays as it was. */
  lemma TooManyIffLimitReached(t: map<string, seq<int>>, b: ContactBody, ip: Option<string>, now: int)
    ensures Decide(t, b, ip, now).outcome == TooMany <==>
      !Present(b.company) && |Recent(t, ip, now)| >= MaxPerWindow
    ensures Decide(t, b, ip, now).outcome == TooMany ==> Decide(t, b, ip, now).table == t
  {
  }

  /** On acceptance the caller's list becomes its pruned list with `now`
      appended last, and no other key is touched. */
  lemma AcceptAppendsNow(t: map<string, seq<int>>, b: ContactBody, ip: Option<string>, now: int)
    requires !Present(b.company) && |Recent(t, ip, now)| < MaxPerWindow
    ensures var t' := Decide(t, b, ip, now).table;
      && ClientKey(ip) in t'
      && t'[ClientKey(ip)] == Recent(t, ip, now) + [now]
      && t'.Keys == t.Keys + {ClientKey(ip)}
      && forall k :: k in t && k != ClientKey(ip) ==> t'[k] == t[k]
  {
  }

  /** The slot is consumed before the fields are checked: a request with a
      missing field is still recorded, then answered 400. */
  lemma MissingFieldStillConsumesSlot(t: map<string, seq<int>>, b: ContactBody, ip: Option<string>, now: int)
    requires !Present(b.company) && |Recent(t, ip, now)| < MaxPerWindow
    requires !HasRequiredFields(b)
    ensures Decide(t, b, ip, now).outcome == Missing
    ensures StatusCode(Decide(t, b, ip, now).outcome) == 400
    ensures Lookup(Decide(t, b, ip, now).table, ClientKey(ip)) == Recent(t, ip, now) + [now]
  {
  }

  /** The 400 answer is given exactly when the honeypot is empty, the caller is
      under the limit, and one of the four required fields is empty or absent;
      the mail is attempted exactly when none of them is. */
  lemma MissingIffFieldAbsent(t: map<string, seq<int>>, b: ContactBody, ip: Option<string>, now: int)
    ensures Decide(t, b, ip, now).outcome == Missing <==>
      !Present(b.company) && |Recent(t, ip, now)| < MaxPerWindow && !HasRequiredFields(b)
    ensures Decide(t, b, ip, now).outcome == Proceed <==>
      !Present(b.company) && |Recent(t, ip, now)| < MaxPerWindow && HasRequiredFields(b)
  {
  }

  /** Every stored list has at most three entries, before and after any request. */
  lemma StoredListsStayShort(t: map<string, seq<int>>, b: ContactBody, ip: Option<string>, now: int)
    requires ValidTable(t)
    ensures forall k :: k in Decide(t, b, ip, now).table ==> |Decide(t, b, ip, now).table[k]| <= MaxPerWindow
  {
    DecidePreservesValid(t, b, ip, now);
  }

  /** Callers without an address share the quota of the key 'unknown': a second
      such caller inside the window sees the first one's timestamp. */
  lemma AnonymousCallersShareQuota(t: map<string, seq<int>>, b1: ContactBody, b2: ContactBody, now1: int, now2: int)
    requires !Present(b1.company) && |Recent(t, None, now1)| < MaxPerWindow
    requires now2 - now1 < WindowMs
    ensures now1 in Recent(Decide(t, b1, None, now1).table, None, now2)
    ensures Recent(Decide(t, b1, None, now1).table, None, now2)
         == Recent(Decide(t, b1, None, now1).table, Some(UnknownClient), now2)
  {
    var t' := Decide(t, b1, None, now1).table;
    assert Lookup(t', UnknownClient) == Recent(t, None, now1) + [now1];
  }

  /** Once every stored entry of a caller has left the window, that caller is
      accepted again (it reaches the field check). */
  lemma WindowReopens(t: map<string, seq<int>>, b: ContactBody, ip: Option<string>, now: int)
    requires !Present(b.company)
    requires forall ts :: ts in Lookup(t, ClientKey(ip)) ==> now - ts >= WindowMs
    ensures Recent(t, ip, now) == []
    ensures Decide(t, b, ip, now).outcome in {Missing, Proceed}
  {
    var h := Lookup(t, ClientKey(ip));
    assert forall i :: 0 <= i < |h| ==> h[i] in h;
    PruneDropsAllOld(h, now);
  }

  lemma {:induction false} PruneDropsAllOld(h: seq<int>, now: int)
    requires forall i :: 0 <= i < |h| ==> now - h[i] >= WindowMs
    ensures Prune(h, now) == []
  {
    if h != [] {
      PruneDropsAllOld(h[1..], now);
    }
  }

  /** A request as the handler sees it: body, client address, arrival time. */
  datatype Request = Request(body: ContactBody, ip: Option<string>, now: int)

  datatype Replayed = Replayed(outcomes: seq<Outcome>, table: map<string, seq<int>>)

  /** Handles the requests one after another, starting from table `t`. */
  function Replay(t: map<string, seq<int>>, rs: seq<Request>): (r: Replayed)
    ensures |r.outcomes| == |rs|
    decreases |rs|
  {
    if rs == [] then Replayed([], t)
    else
      var d := Decide(t, rs[0].body, rs[0].ip, rs[0].now);
      var rest := Replay(d.table, rs[1..]);
      Replayed([d.outcome] + rest.outcomes, rest.table)
  }

  /** Number of requests from `key` whose outcome recorded a timestamp
      (400 or mail sent); `outs[i]` is the outcome of `rs[i]`. */
  function RecordedFor(rs: seq<Request>, outs: seq<Outcome>, key: string): nat
    requires |outs| == |rs|
  {
    if rs == [] then 0
    else
      var here := if ClientKey(rs[0].ip) == key && (outs[0].Missing? || outs[0].Proceed?) then 1 else 0;
      here + RecordedFor(rs[1..], outs[1..], key)
  }

  /** Every request from `key` arrives inside one window `[t0, t0 + WindowMs)`;
      requests from other callers may come at any time in between. */
  predicate KeyInWindow(rs: seq<Request>, key: string, t0: int) {
    forall i :: 0 <= i < |rs| && ClientKey(rs[i].ip) == key ==> t0 <= rs[i].now < t0 + WindowMs
  }

  /** `rec` is the tail of the list stored for `key`. */
  predicate EndsWith(t: map<string, seq<int>>, key: string, rec: seq<int>) {
    |rec| <= |Lookup(t, key)| && Lookup(t, key)[|Lookup(t, key)| - |rec|..] == rec
  }

  predicate InWindow(rec: seq<int>, t0: int) {
    forall i :: 0 <= i < |rec| ==> t0 <= rec[i] < t0 + WindowMs
  }

  /** An accepted request inside the window keeps the earlier in-window
      timestamps at the tail of the stored list and appends its own. */
  lemma RecordStep(t: map<string, seq<int>>, q: Request, key: string, t0: int, rec: seq<int>)
    requires ClientKey(q.ip) == key && t0 <= q.now < t0 + WindowMs
    requires InWindow(rec, t0) && EndsWith(t, key, rec)
    requires Decide(t, q.body, q.ip, q.now).outcome in {Missing, Proceed}
    ensures EndsWith(Decide(t, q.body, q.ip, q.now).table, key, rec + [q.now])
  {
    var l := Lookup(t, key);
    AcceptAppendsNow(t, q.body, q.ip, q.now);
    assert Lookup(Decide(t, q.body, q.ip, q.now).table, key) == Prune(l, q.now) + [q.now];
    assert forall i :: 0 <= i < |rec| ==> q.now - rec[i] < WindowMs;
    PruneKeepsTail(l, rec, q.now);
  }

  lemma InWindowAppend(rec: seq<int>, x: int, t0: int)
    requires InWindow(rec, t0) && t0 <= x < t0 + WindowMs
    ensures InWindow(rec + [x], t0)
  {
    assert forall i :: 0 <= i < |rec| ==> (rec + [x])[i] == rec[i];
  }

  /** Appending `now` to a pruned list whose recent tail is `rec` leaves
      `rec + [now]` as its tail. */
  lemma PruneKeepsTail(l: seq<int>, rec: seq<int>, now: int)
    requires |rec| <= |l| && l[|l| - |rec|..] == rec
    requires forall i :: 0 <= i < |rec| ==> now - rec[i] < WindowMs
    ensures var l' := Prune(l, now) + [now];
      |rec + [now]| <= |l'| && l'[|l'| - |rec + [now]|..] == rec + [now]
  {
    var x := l[..|l| - |rec|];
    assert l == x + rec;
    PruneAppend(x, rec, now);
    PruneKeepsAllRecent(rec, now);
    SuffixOfConcat(Prune(x, now), rec + [now]);
    assert Prune(l, now) + [now] == Prune(x, now) + (rec + [now]);
  }

  lemma SuffixOfConcat(a: seq<int>, b: seq<int>)
    ensures (a + b)[|a + b| - |b|..] == b
  {
  }

  lemma {:induction false} RecordedWithinWindow(t: map<string, seq<int>>, rs: seq<Request>, key: string, t0: int, rec: seq<int>)
    requires ValidTable(t)
    requires KeyInWindow(rs, key, t0)
    requires InWindow(rec, t0) && EndsWith(t, key, rec)
    ensures |rec| + RecordedFor(rs, Replay(t, rs).outcomes, key) <= MaxPerWindow
    decreases |rs|
  {
    if rs == [] {
      assert |Lookup(t, key)| <= MaxPerWindow by {
        if key in t { assert WellFormedHistory(t[key]); }
      }
    } else {
      var q := rs[0];
      var d := Decide(t, q.body, q.ip, q.now);
      DecidePreservesValid(t, q.body, q.ip, q.now);
      KeyInWindowTail(rs, key, t0);
      ReplayStep(t, rs, key);
      if ClientKey(q.ip) != key {
        OtherCallerKeepsTail(t, q, key, rec);
        RecordedWithinWindow(d.table, rs[1..], key, t0, rec);
      } else if d.outcome.HoneypotOk? || d.outcome.TooMany? {
        RecordedWithinWindow(d.table, rs[1..], key, t0, rec);
      } else {
        RecordStep(t, q, key, t0, rec);
        InWindowAppend(rec, q.now, t0);
        RecordedWithinWindow(d.table, rs[1..], key, t0, rec + [q.now]);
      }
    }
  }

  lemma KeyInWindowTail(rs: seq<Request>, key: string, t0: int)
    requires rs != [] && KeyInWindow(rs, key, t0)
    ensures KeyInWindow(rs[1..], key, t0)
    ensures ClientKey(rs[0].ip) == key ==> t0 <= rs[0].now < t0 + WindowMs
  {
    forall i | 0 <= i < |rs[1..]| && ClientKey(rs[1..][i].ip) == key
      ensures t0 <= rs[1..][i].now < t0 + WindowMs
    {
      assert rs[1..][i] == rs[i + 1];
    }
  }

  /** One request less: the count over `rs` is the first request's share plus
      the count over the rest, replayed from the table it leaves behind. */
  lemma ReplayStep(t: map<string, seq<int>>, rs: seq<Request>, key: string)
    requires rs != []
    ensures var d := Decide(t, rs[0].body, rs[0].ip, rs[0].now);
      RecordedFor(rs, Replay(t, rs).outcomes, key)
      == (if ClientKey(rs[0].ip) == key && (d.outcome.Missing? || d.outcome.Proceed?) then 1 else 0)
         + RecordedFor(rs[1..], Replay(d.table, rs[1..]).outcomes, key)
  {
    var d := Decide(t, rs[0].body, rs[0].ip, rs[0].now);
    var outs := Replay(t, rs).outcomes;
    assert outs[1..] == Replay(d.table, rs[1..]).outcomes;
  }

  /** A request from another caller leaves `key`'s stored list as it was. */
  lemma OtherCallerKeepsTail(t: map<string, seq<int>>, q: Request, key: string, rec: seq<int>)
    requires ClientKey(q.ip) != key && EndsWith(t, key, rec)
    ensures EndsWith(Decide(t, q.body, q.ip, q.now).table, key, rec)
  {
    assert Lookup(Decide(t, q.body, q.ip, q.now).table, key) == Lookup(t, key);
  }

  /** However the requests of one caller inside one window interleave with
      honeypot hits, 429s and any number of other callers' requests, at most
      three of that caller's requests are recorded (and so at most three reach
      the mail transport). */
  lemma AtMostThreePerWindow(t: map<string, seq<int>>, rs: seq<Request>, key: string, t0: int)
    requires ValidTable(t)
    requires KeyInWindow(rs, key, t0)
    ensures RecordedFor(rs, Replay(t, rs).outcomes, key) <= MaxPerWindow
  {
    RecordedWithinWindow(t, rs, key, t0, []);
  }
}
