/** `FetchGlpiHttpClient`: one session handshake shared by all concurrent requests. */
module GlpiSession {
  import opened Strings

  // ---- credentials ----------------------------------------------------------------------

  /** `s.split(':')` */
  function SplitColon(s: string): (r: seq<string>)
    ensures |r| >= 1
  {
    if s == [] then [""]
    else
      var r := SplitColon(s[1..]);
      if s[0] == ':' then [""] + r else [[s[0]] + r[0]] + r[1..]
  }

  /** `parts.join(':')` */
  function JoinColon(parts: seq<string>): string {
    if parts == [] then ""
    else if |parts| == 1 then parts[0]
    else parts[0] + ":" + JoinColon(parts[1..])
  }

  function Username(apiToken: string): string {
    SplitColon(apiToken)[0]
  }

  function Password(apiToken: string): string {
    JoinColon(SplitColon(apiToken)[1..])
  }

  /** What the `Authorization: Basic` header encodes. */
  function Credentials(apiToken: string): string {
    Username(apiToken) + ":" + Password(apiToken)
  }

  /** The credentials are the API token itself exactly when the token contains a colon, and then
      the user name ends at the first one (RFC 7617 section 2); a token without a colon gets one
      appended and an empty password. */
  lemma CredentialsRoundTrip(apiToken: string)
    ensures ':' !in Username(apiToken)
    ensures Credentials(apiToken) == apiToken <==> ':' in apiToken
    ensures ':' !in apiToken ==> Credentials(apiToken) == apiToken + ":"
  {
    SplitColonMeaning(apiToken);
    assert |Credentials(apiToken)| > |apiToken| ==> Credentials(apiToken) != apiToken;
  }

  lemma {:induction false} SplitColonMeaning(s: string)
    ensures JoinColon(SplitColon(s)) == s
    ensures ':' !in SplitColon(s)[0]
    ensures |SplitColon(s)| == 1 <==> ':' !in s
  {
    if s != [] {
      SplitColonMeaning(s[1..]);
      var r := SplitColon(s[1..]);
      assert s == [s[0]] + s[1..];
      if s[0] == ':' {
        assert ([""] + r)[1..] == r;
      } else {
        assert ([[s[0]] + r[0]] + r[1..])[1..] == r[1..];
      }
    }
  }

  // ---- the handshake --------------------------------------------------------------------

  /** `sessionInitPromise`: not created, pending, fulfilled or rejected. */
  datatype Init = NotStarted | InFlight | Fulfilled | Rejected

  /** A request waits in `ensureSession`, has been sent with a token, or is over. */
  datatype Request = Waiting | Sent | Failed | Completed

  /** What goes out over the network. */
  datatype Wire = InitSession(credentials: string) | Data(request: nat, token: string)

  /** `token` is `sessionToken`; `None` is `undefined`. */
  datatype Client = Client(apiToken: string, token: Option<string>, init: Init, requests: seq<Request>, wire: seq<Wire>)

  /** The answer to `initSession`: an HTTP error, a timeout or an unreadable body; or a body with
      its `session_token`, if it has one. */
  datatype InitReply = Error | Body(token: Option<string>)

  /** The steps between which any other task can run. */
  datatype Event = Call | OnInitReply(reply: InitReply) | Resume(i: nat) | OnReply(i: nat, ok: bool)

  function Start(apiToken: string): Client {
    Client(apiToken, None, NotStarted, [], [])
  }

  predicate HasToken(c: Client) {
    c.token.Some? && c.token.value != ""
  }

  function Apply(c: Client, e: Event): Option<Client> {
    match e
    case Call =>
      var c' := c.(requests := c.requests + [Waiting]);
      if HasToken(c) || c.init != NotStarted then Some(c')
      else Some(c'.(init := InFlight, wire := c.wire + [InitSession(Credentials(c.apiToken))]))
    case OnInitReply(reply) =>
      if c.init != InFlight then None
      else if reply.Error? then Some(c.(init := Rejected))
      else
        var c' := c.(token := reply.token);
        Some(c'.(init := if HasToken(c') then Fulfilled else Rejected))
    case Resume(i) =>
      if i >= |c.requests| || c.requests[i] != Waiting || (c.init == InFlight && !HasToken(c)) then None
      else if c.init == Rejected && !HasToken(c) then Some(c.(requests := c.requests[i := Failed]))
      else
        Some(c.(requests := c.requests[i := Sent],
                wire := c.wire + [Data(i, if c.token.Some? then c.token.value else "")]))
    case OnReply(i, ok) =>
      if i >= |c.requests| || c.requests[i] != Sent then None
      else Some(c.(requests := c.requests[i := if ok then Completed else Failed]))
  }

  function Run(c: Client, events: seq<Event>): Option<Client> {
    if events == [] then Some(c)
    else
      var before := Run(c, events[..|events| - 1]);
      if before.None? then None else Apply(before.value, events[|events| - 1])
  }

  /** `initSession` is the first thing on the wire and is there once; everything behind it carries
      the one stored, non-empty token; and nothing is behind it unless the handshake succeeded. */
  ghost predicate Inv(c: Client) {
    && (c.init == NotStarted <==> c.wire == [])
    && (c.init == NotStarted ==> c.requests == [] && c.token == None)
    && (c.wire != [] ==> c.wire[0] == InitSession(Credentials(c.apiToken)))
    && (forall k :: 0 < k < |c.wire| ==> c.wire[k].Data? && Some(c.wire[k].token) == c.token)
    && (HasToken(c) <==> c.init == Fulfilled)
    && (c.init != Fulfilled ==> |c.wire| <= 1)
    && (c.init != Fulfilled ==>
          forall i :: 0 <= i < |c.requests| ==> c.requests[i] == Waiting || c.requests[i] == Failed)
    && (c.init == InFlight ==> forall i :: 0 <= i < |c.requests| ==> c.requests[i] == Waiting)
  }

  /** One handshake at most, and no data request without its token, over every interleaving of any
      number of requests, replies and failures. */
  lemma {:induction false} RunKeepsInv(apiToken: string, events: seq<Event>)
    requires Run(Start(apiToken), events).Some?
    ensures var c := Run(Start(apiToken), events).value; Inv(c) && c.apiToken == apiToken
  {
    if events != [] {
      var before := events[..|events| - 1];
      RunKeepsInv(apiToken, before);
      StepKeepsInv(Run(Start(apiToken), before).value, events[|events| - 1]);
    }
  }

  lemma StepKeepsInv(c: Client, e: Event)
    requires Inv(c) && Apply(c, e).Some?
    ensures Inv(Apply(c, e).value) && Apply(c, e).value.apiToken == c.apiToken
  {
  }

  function InitCalls(wire: seq<Wire>): nat {
    if wire == [] then 0
    else InitCalls(wire[..|wire| - 1]) + (if wire[|wire| - 1].InitSession? then 1 else 0)
  }

  lemma {:induction false} OneInit(wire: seq<Wire>)
    requires forall k :: 0 < k < |wire| ==> wire[k].Data?
    ensures InitCalls(wire) <= 1
    ensures wire != [] && wire[0].Data? ==> InitCalls(wire) == 0
  {
    if |wire| > 1 { OneInit(wire[..|wire| - 1]); }
  }

  lemma AtMostOneHandshake(apiToken: string, events: seq<Event>)
    requires Run(Start(apiToken), events).Some?
    ensures var c := Run(Start(apiToken), events).value;
      && InitCalls(c.wire) <= 1
      && forall k :: 0 <= k < |c.wire| && c.wire[k].Data? ==>
           c.wire[k].token != "" && Some(c.wire[k].token) == c.token
           && exists j :: 0 <= j < k && c.wire[j] == InitSession(Credentials(apiToken))
  {
    RunKeepsInv(apiToken, events);
    var c := Run(Start(apiToken), events).value;
    OneInit(c.wire);
    forall k | 0 <= k < |c.wire| && c.wire[k].Data?
      ensures exists j :: 0 <= j < k && c.wire[j] == InitSession(Credentials(apiToken))
    {
      assert c.wire[0] == InitSession(Credentials(apiToken));
    }
  }

  /** What the history `events` and the wire say about request `i`. */
  ghost predicate RequestInv(c: Client, events: seq<Event>, i: nat)
    requires i < |c.requests|
  {
    && (c.requests[i] == Waiting <==> Resume(i) !in events)
    && (c.requests[i] == Completed <==> OnReply(i, true) in events)
    && (c.requests[i] == Failed ==> OnReply(i, false) in events || c.init == Rejected)
    && (c.requests[i] == Sent || c.requests[i] == Completed ==> exists k :: SentAt(c.wire, i, k))
  }

  predicate SentAt(wire: seq<Wire>, i: nat, k: int) {
    0 <= k < |wire| && wire[k].Data? && wire[k].request == i
  }

  ghost predicate EachOnce(c: Client) {
    && (forall i: nat, k :: SentAt(c.wire, i, k) ==> i < |c.requests| && c.requests[i] != Waiting)
    && (forall i: nat, j, k :: SentAt(c.wire, i, j) && SentAt(c.wire, i, k) ==> j == k)
  }

  /** No data request is sent twice or for nobody; a request completes exactly when its own good
      answer comes in, which it can only do after it was sent, and it fails only by its own bad
      answer or with the handshake. */
  lemma {:induction false} OneDataPerRequest(apiToken: string, events: seq<Event>)
    requires Run(Start(apiToken), events).Some?
    ensures var c := Run(Start(apiToken), events).value;
      EachOnce(c) && forall i :: 0 <= i < |c.requests| ==> RequestInv(c, events, i)
    ensures forall i: nat :: Resume(i) in events || OnReply(i, true) in events || OnReply(i, false) in events ==>
              i < |Run(Start(apiToken), events).value.requests|
  {
    if events != [] {
      var before, e := events[..|events| - 1], events[|events| - 1];
      OneDataPerRequest(apiToken, before);
      var b, c := Run(Start(apiToken), before).value, Run(Start(apiToken), events).value;
      forall x ensures x in events <==> x in before || x == e {
        InLast(events, x);
      }
      WireStep(b, e);
      forall i | 0 <= i < |c.requests| ensures RequestInv(c, events, i) {
        assert i < |b.requests| ==> RequestInv(b, before, i);
        RequestStep(b, before, e, events, i);
      }
    }
  }

  lemma InLast(events: seq<Event>, x: Event)
    requires events != []
    ensures x in events <==> x in events[..|events| - 1] || x == events[|events| - 1]
  {
    assert events == events[..|events| - 1] + [events[|events| - 1]];
  }

  lemma WireStep(c: Client, e: Event)
    requires EachOnce(c) && Apply(c, e).Some?
    ensures EachOnce(Apply(c, e).value)
  {
    var d := Apply(c, e).value;
    forall i: nat, k | SentAt(d.wire, i, k) ensures i < |d.requests| && d.requests[i] != Waiting {
      if k < |c.wire| { assert SentAt(c.wire, i, k); }
    }
    forall i: nat, j, k | SentAt(d.wire, i, j) && SentAt(d.wire, i, k) ensures j == k {
      assert j < |c.wire| ==> SentAt(c.wire, i, j);
      assert k < |c.wire| ==> SentAt(c.wire, i, k);
    }
  }

  lemma RequestStep(c: Client, before: seq<Event>, e: Event, events: seq<Event>, i: nat)
    requires Apply(c, e).Some? && i < |Apply(c, e).value.requests|
    requires forall x :: x in events <==> x in before || x == e
    requires if i < |c.requests| then RequestInv(c, before, i)
             else Resume(i) !in before && OnReply(i, true) !in before && OnReply(i, false) !in before
    ensures RequestInv(Apply(c, e).value, events, i)
  {
    var d := Apply(c, e).value;
    if i < |c.requests| {
      SentStays(c, e, i);
      if e == Resume(i) && d.requests[i] == Sent { assert SentAt(d.wire, i, |c.wire|); }
    }
  }

  lemma SentStays(c: Client, e: Event, i: nat)
    requires Apply(c, e).Some?
    ensures (exists k :: SentAt(c.wire, i, k)) ==> exists k :: SentAt(Apply(c, e).value.wire, i, k)
  {
    if exists k :: SentAt(c.wire, i, k) {
      var k :| SentAt(c.wire, i, k);
      assert SentAt(Apply(c, e).value.wire, i, k);
    }
  }

  predicate GoodReply(reply: InitReply) {
    reply.Body? && reply.token.Some? && reply.token.value != ""
  }

  ghost predicate Answered(events: seq<Event>, good: bool) {
    exists reply :: OnInitReply(reply) in events && GoodReply(reply) == good
  }

  /** What the stored token and the promise owe to the answer of the server, over every run: the
      handshake is open from the first request to the first answer; it is fulfilled, and the token
      is the one in the answer, exactly after a body with a non-empty token, and rejected exactly
      after any other answer. There is one request per call. */
  lemma {:induction false} HandshakeFollowsAnswer(apiToken: string, events: seq<Event>)
    requires Run(Start(apiToken), events).Some?
    ensures var c := Run(Start(apiToken), events).value;
      && (c.init == Fulfilled <==> Answered(events, true))
      && (c.init == Rejected <==> Answered(events, false))
      && (c.init == NotStarted <==> Call !in events)
      && (forall t: string :: t != "" ==>
            (OnInitReply(Body(Some(t))) in events <==> c.token == Some(t) && c.init == Fulfilled))
      && |c.requests| == Calls(events)
  {
    if events != [] {
      var before, e := events[..|events| - 1], events[|events| - 1];
      HandshakeFollowsAnswer(apiToken, before);
      RunKeepsInv(apiToken, before);
      forall x ensures x in events <==> x in before || x == e {
        InLast(events, x);
      }
      assert forall reply :: OnInitReply(reply) in before ==> Answered(before, GoodReply(reply));
      AnswerStep(before, e, events);
    }
  }

  function Calls(events: seq<Event>): nat {
    if events == [] then 0
    else Calls(events[..|events| - 1]) + if events[|events| - 1].Call? then 1 else 0
  }

  lemma AnswerStep(before: seq<Event>, e: Event, events: seq<Event>)
    requires forall x :: x in events <==> x in before || x == e
    ensures forall good :: Answered(events, good) <==>
              Answered(before, good) || (e.OnInitReply? && GoodReply(e.reply) == good)
  {
  }

  /** After a good answer every resumed request has gone out with the token in that answer, and fails
      only by its own bad answer. */
  lemma {:induction false} ResumedRequestsAreSent(apiToken: string, events: seq<Event>, t: string, i: nat)
    requires Run(Start(apiToken), events).Some?
    requires t != "" && OnInitReply(Body(Some(t))) in events && Resume(i) in events
    ensures Data(i, t) in Run(Start(apiToken), events).value.wire
    ensures var requests := Run(Start(apiToken), events).value.requests;
      i < |requests| && (requests[i] == Failed ==> OnReply(i, false) in events)
  {
    HandshakeFollowsAnswer(apiToken, events);
    OneDataPerRequest(apiToken, events);
    RunKeepsInv(apiToken, events);
    var c := Run(Start(apiToken), events).value;
    assert RequestInv(c, events, i);
    SentOnResume(apiToken, events, i);
    var k :| SentAt(c.wire, i, k);
    assert c.wire[k] == Data(i, t);
  }

  /** A request that has been resumed while the handshake was good is on the wire. */
  lemma {:induction false} SentOnResume(apiToken: string, events: seq<Event>, i: nat)
    requires Run(Start(apiToken), events).Some? && Resume(i) in events
    requires Run(Start(apiToken), events).value.init == Fulfilled
    ensures exists k :: SentAt(Run(Start(apiToken), events).value.wire, i, k)
  {
    var before, e := events[..|events| - 1], events[|events| - 1];
    RunKeepsInv(apiToken, before);
    InLast(events, Resume(i));
    var b, c := Run(Start(apiToken), before).value, Run(Start(apiToken), events).value;
    if e == Resume(i) {
      assert SentAt(c.wire, i, |b.wire|);
    } else {
      OneDataPerRequest(apiToken, before);
      assert RequestInv(b, before, i);
      SentOnResume(apiToken, before, i);
      SentStays(b, e, i);
    }
  }

  /** A failed handshake is final: whatever happens afterwards, nothing more is sent, and requests
      can only fail. */
  lemma {:induction false} FailureIsSticky(c: Client, events: seq<Event>)
    requires Inv(c) && c.init == Rejected && Run(c, events).Some?
    ensures var c' := Run(c, events).value;
      && c'.init == Rejected && c'.wire == c.wire && c'.token == c.token && Inv(c')
      && |c.requests| <= |c'.requests|
      && (forall i :: 0 <= i < |c'.requests| ==> c'.requests[i] == Waiting || c'.requests[i] == Failed)
      && (forall i: nat :: Resume(i) in events ==> i < |c'.requests| && c'.requests[i] == Failed)
  {
    if events != [] {
      var before := events[..|events| - 1];
      FailureIsSticky(c, before);
      StepKeepsInv(Run(c, before).value, events[|events| - 1]);
      assert forall i: nat :: Resume(i) in events ==> Resume(i) in before || Resume(i) == events[|events| - 1];
    }
  }

  /** No request is stuck: a waiting one can go on unless the handshake is still in flight, and an
      outstanding handshake can still be answered. */
  lemma NothingStuck(c: Client, i: nat)
    requires Inv(c) && i < |c.requests| && c.requests[i] == Waiting
    ensures c.init == InFlight || Apply(c, Resume(i)).Some?
    ensures c.init == InFlight ==> forall r :: Apply(c, OnInitReply(r)).Some?
  {
  }

  // ---- the client object ----------------------------------------------------------------

  class FetchGlpiHttpClient {
    const username: string
    const password: string
    ghost const apiToken: string
    var sessionToken: Option<string>
    var sessionInitPromise: Init
    var requests: seq<Request>
    var wire: seq<Wire>

    ghost function State(): Client
      reads this
    {
      Client(apiToken, sessionToken, sessionInitPromise, requests, wire)
    }

    ghost predicate Valid() {
      username == Username(apiToken) && password == Password(apiToken)
    }

    constructor (apiToken: string)
      ensures Valid() && State() == Start(apiToken)
    {
      var parts := SplitColon(apiToken);
      username := parts[0];
      password := JoinColon(parts[1..]);
      this.apiToken := apiToken;
      sessionToken, sessionInitPromise, requests, wire := None, NotStarted, [], [];
    }

    /** `initSession` up to its first await. */
    method InitSession()
      requires Valid()
      modifies this`wire
      ensures wire == old(wire) + [Wire.InitSession(Credentials(apiToken))]
    {
      wire := wire + [Wire.InitSession(username + ":" + password)];
    }

    /** `request` up to the await in `ensureSession`. */
    method Request()
      requires Valid()
      modifies this
      ensures Apply(old(State()), Call) == Some(State())
    {
      requests := requests + [Waiting];
      if sessionToken.Some? && sessionToken.value != "" {
        return;
      }
      if sessionInitPromise == NotStarted {
        InitSession();
        sessionInitPromise := InFlight;
      }
    }

    /** The rest of `initSession`. */
    method InitSettles(reply: InitReply)
      requires sessionInitPromise == InFlight
      modifies this
      ensures Apply(old(State()), OnInitReply(reply)) == Some(State())
    {
      if reply.Error? {
        sessionInitPromise := Rejected;
        return;
      }
      sessionToken := reply.token;
      if sessionToken.None? || sessionToken.value == "" {
        sessionInitPromise := Rejected;
        return;
      }
      sessionInitPromise := Fulfilled;
    }

    /** `request` from the await in `ensureSession` to the data fetch. */
    method ContinueRequest(i: nat)
      requires i < |requests| && requests[i] == Waiting
      requires sessionInitPromise == InFlight ==> HasToken(State())
      modifies this
      ensures Apply(old(State()), Resume(i)) == Some(State())
    {
      if !(sessionToken.Some? && sessionToken.value != "") && sessionInitPromise == Rejected {
        requests := requests[i := Failed];
        return;
      }
      var header := if sessionToken.Some? then sessionToken.value else "";
      wire := wire + [Data(i, header)];
      requests := requests[i := Sent];
    }
  }
}
