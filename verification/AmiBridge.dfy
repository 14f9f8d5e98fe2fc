/** The Asterisk AMI bridge connection: header parsing, login handshake, event forwarding. */
module AmiBridge {
  import opened Strings
  import opened CrlfLines
  import opened AmiFraming

  type Headers = map<string, string>

  datatype Reason = AmiError(message: Option<string>) | ClosedBeforeLogin

  /** The promise that `connectAmi` returns; the first settlement wins. */
  datatype Promise = Pending | Resolved | Rejected(reason: Reason) {
    function Resolve(): Promise { if Pending? then Resolved else this }
    function Reject(r: Reason): Promise { if Pending? then Rejected(r) else this }
  }

  datatype CallId = Given(id: string) | GeneratedFromClock

  /** A value of `rawEvent`: the text of a header, or the boolean mark. */
  datatype RawValue = Text(text: string) | True

  /** The normalised event posted to the API. `callee` is `None` for `undefined`. */
  datatype CallEvent = CallEvent(
    callId: CallId, eventType: string, caller: string, callee: Option<string>, raw: map<string, RawValue>)

  /** Everything that handling blocks can change. */
  datatype Session = Session(loggedIn: bool, promise: Promise, forwarded: seq<CallEvent>)

  const START := Session(false, Pending, [])
  const FORWARDED_EVENTS := ["Newchannel", "Newstate", "Hangup"]

  /** `line.indexOf(': ') > 0`, and the key is one an ordinary assignment can create. */
  predicate IsHeader(line: string) {
    var idx := IndexOf(line, ": ");
    idx > 0 && line[..idx] != "__proto__"
  }

  function Key(line: string): string
    requires IsHeader(line)
  {
    line[..IndexOf(line, ": ")]
  }

  function Value(line: string): string
    requires IsHeader(line)
  {
    line[IndexOf(line, ": ") + 2..]
  }

  function Parse(block: Block): Headers {
    if block == [] then map[]
    else
      var last := block[|block| - 1];
      var m := Parse(block[..|block| - 1]);
      if IsHeader(last) then m[Key(last) := Value(last)] else m
  }

  /** The value of a header, `""` when it is missing: both are falsy. */
  function Get(h: Headers, key: string): string {
    if key in h then h[key] else ""
  }

  function Or(a: string, b: string): string {
    if a != "" then a else b
  }

  function Normalize(h: Headers): CallEvent {
    var id := Or(Get(h, "Uniqueid"), Get(h, "Linkedid"));
    var callee := Or(Get(h, "Exten"), Get(h, "DNID"));
    CallEvent(
      if id != "" then Given(id) else GeneratedFromClock,
      Or(Get(h, "Event"), "Unknown"),
      Or(Or(Get(h, "CallerIDNum"), Get(h, "CallerID")), "+3223456789"),
      if callee != "" then Some(callee) else None,
      Raw(h))
  }

  /** `rawEvent`: the headers, two of them overwritten. */
  function Raw(h: Headers): map<string, RawValue> {
    (map key | key in h :: Text(h[key]))["Secret" := Text("[REDACTED]")]["LocalTestEvent" := True]
  }

  predicate Accepts(h: Headers) {
    Get(h, "Response") == "Success" && Includes(Get(h, "Message"), "Authentication accepted")
  }

  predicate Refuses(h: Headers) {
    Get(h, "Response") == "Error"
  }

  predicate Forwards(h: Headers) {
    !Accepts(h) && !Refuses(h) && Get(h, "Event") in FORWARDED_EVENTS
  }

  function HandleBlock(s: Session, block: Block): Session {
    var h := Parse(block);
    if Accepts(h) then s.(loggedIn := true, promise := s.promise.Resolve())
    else if Refuses(h) then
      s.(promise := s.promise.Reject(AmiError(if "Message" in h then Some(h["Message"]) else None)))
    else if Forwards(h) then s.(forwarded := s.forwarded + [Normalize(h)])
    else s
  }

  function HandleAll(s: Session, blocks: seq<Block>): Session {
    if blocks == [] then s
    else HandleBlock(HandleAll(s, blocks[..|blocks| - 1]), blocks[|blocks| - 1])
  }

  lemma {:induction false} HandleAllAppend(s: Session, a: seq<Block>, b: seq<Block>)
    ensures HandleAll(s, a + b) == HandleAll(HandleAll(s, a), b)
  {
    if b == [] {
      assert a + b == a;
    } else {
      assert (a + b)[..|a + b| - 1] == a + b[..|b| - 1];
      HandleAllAppend(s, a, b[..|b| - 1]);
    }
  }

  lemma HandleAllFlush(s: Session, done: seq<Block>, block: Block)
    ensures HandleAll(s, done + Flush(block))
         == if block == [] then HandleAll(s, done) else HandleBlock(HandleAll(s, done), block)
  {
    if block == [] {
      assert done + Flush(block) == done;
    } else {
      assert (done + [block])[..|done|] == done;
    }
  }

  lemma Regroup(done: seq<Block>, b: seq<Block>, rest: seq<Block>)
    ensures done + (b + rest) == done + b + rest
  {
  }

  /** What one more data event adds to a connection. */
  lemma EventEffect(chunks: seq<string>, data: string)
    ensures var s := Received(chunks);
      && Received(chunks + [data]) == s + data
      && Tail(s + data) == Tail(Tail(s) + data)
      && HandleAll(START, Handled(chunks + [data]))
         == HandleAll(HandleAll(START, Handled(chunks)), Blocks(Lines(Tail(s) + data)))
  {
    var s := Received(chunks);
    FeedResumes(s, data);
    assert (chunks + [data])[..|chunks|] == chunks;
    HandleAllAppend(START, Handled(chunks), Blocks(Lines(Tail(s) + data)));
  }

  /** `i` is the last line that sets `key`. */
  ghost predicate LastWith(block: Block, key: string, i: int) {
    && 0 <= i < |block| && IsHeader(block[i]) && Key(block[i]) == key
    && forall j :: i < j < |block| && IsHeader(block[j]) ==> Key(block[j]) != key
  }

  /** Header parsing keeps, for each key, the text behind the first ": " of the last line that has
      this key, and knows no other keys. */
  lemma {:induction false} ParseKeepsLastValue(block: Block, key: string)
    ensures key in Parse(block) ==> exists i :: LastWith(block, key, i)
    ensures forall i :: LastWith(block, key, i) ==> key in Parse(block) && Parse(block)[key] == Value(block[i])
  {
    if block != [] {
      var n := |block| - 1;
      var before, last := block[..n], block[n];
      ParseKeepsLastValue(before, key);
      LastWithStep(before, last, block, key);
      if IsHeader(last) && Key(last) == key {
        assert LastWith(block, key, n);
      } else {
        assert key in Parse(block) <==> key in Parse(before);
        assert key in Parse(block) ==> Parse(block)[key] == Parse(before)[key];
        if key in Parse(before) {
          var i :| LastWith(before, key, i);
          assert LastWith(block, key, i);
        }
      }
    }
  }

  lemma LastWithStep(before: Block, last: string, block: Block, key: string)
    requires block == before + [last]
    ensures IsHeader(last) && Key(last) == key ==> forall i :: LastWith(block, key, i) <==> i == |before|
    ensures !(IsHeader(last) && Key(last) == key) ==>
              forall i :: LastWith(block, key, i) <==> LastWith(before, key, i)
    ensures forall i :: LastWith(before, key, i) ==> block[i] == before[i]
  {
    assert block[|before|] == last;
    assert forall i :: 0 <= i < |before| ==> block[i] == before[i];
  }

  predicate AcceptsLogin(block: Block) { Accepts(Parse(block)) }

  predicate RefusesLogin(block: Block) { Refuses(Parse(block)) }

  predicate Undecided(blocks: seq<Block>) {
    forall i :: 0 <= i < |blocks| ==> !AcceptsLogin(blocks[i]) && !RefusesLogin(blocks[i])
  }

  /** The events of the blocks that are posted to the API, in order. */
  function Forwarded(blocks: seq<Block>): seq<CallEvent> {
    if blocks == [] then []
    else
      var n := |blocks| - 1;
      Forwarded(blocks[..n]) + ForwardedBy(blocks[n])
  }

  function ForwardedBy(block: Block): seq<CallEvent> {
    var h := Parse(block);
    if Forwards(h) then [Normalize(h)] else []
  }

  /** Events are posted from exactly the forwarding blocks, in order, none with its secret. */
  lemma {:induction false} ForwardingMeaning(blocks: seq<Block>)
    ensures var sent := HandleAll(START, blocks).forwarded;
      && sent == Forwarded(blocks)
      && forall e :: e in sent ==> "Secret" in e.raw && e.raw["Secret"] == Text("[REDACTED]")
                                   && e.eventType in FORWARDED_EVENTS
  {
    if blocks != [] {
      var n := |blocks| - 1;
      ForwardingMeaning(blocks[..n]);
      HandlingOne(HandleAll(START, blocks[..n]), blocks[n]);
    }
  }

  /** The last line of the block with this key has this value, and it is not empty. */
  ghost predicate Says(block: Block, key: string, value: string) {
    value != "" && exists i :: LastWith(block, key, i) && Value(block[i]) == value
  }

  /** The block has no such header, or its last one is empty. */
  ghost predicate Silent(block: Block, key: string) {
    forall value :: !Says(block, key, value)
  }

  lemma GetMeaning(block: Block, key: string)
    ensures forall value :: Says(block, key, value) <==> value != "" && Get(Parse(block), key) == value
    ensures Silent(block, key) <==> Get(Parse(block), key) == ""
  {
    ParseKeepsLastValue(block, key);
    var h := Parse(block);
    if key in h && h[key] != "" {
      assert Says(block, key, h[key]);
    }
  }

  /** What a posted event says of its block, header by header: `rawEvent` has the value of the last
      line for each key, and no other keys, but for the redacted secret and the test mark. */
  lemma RawEvent(block: Block, key: string)
    ensures var raw := Normalize(Parse(block)).raw;
      && (key != "Secret" && key != "LocalTestEvent" ==>
            && (key in raw ==> exists i :: LastWith(block, key, i))
            && (forall i :: LastWith(block, key, i) ==> key in raw && raw[key] == Text(Value(block[i]))))
      && "Secret" in raw && raw["Secret"] == Text("[REDACTED]")
      && "LocalTestEvent" in raw && raw["LocalTestEvent"] == True
  {
    ParseKeepsLastValue(block, key);
    RawHeaders(Parse(block), key);
  }

  /** The other fields of a posted event, from the headers of its block alone: which header each one
      takes, which one when the first says nothing, and what when both are silent. */
  lemma NormalizedEvent(block: Block, value: string)
    ensures var e := Normalize(Parse(block));
      && (Says(block, "Event", value) ==> e.eventType == value)
      && (Silent(block, "Event") ==> e.eventType == "Unknown")
      && (Says(block, "CallerIDNum", value) ==> e.caller == value)
      && (Silent(block, "CallerIDNum") && Says(block, "CallerID", value) ==> e.caller == value)
      && (Silent(block, "CallerIDNum") && Silent(block, "CallerID") ==> e.caller == "+3223456789")
      && (Says(block, "Uniqueid", value) ==> e.callId == Given(value))
      && (Silent(block, "Uniqueid") && Says(block, "Linkedid", value) ==> e.callId == Given(value))
      && (Silent(block, "Uniqueid") && Silent(block, "Linkedid") ==> e.callId == GeneratedFromClock)
      && (Says(block, "Exten", value) ==> e.callee == Some(value))
      && (Silent(block, "Exten") && Says(block, "DNID", value) ==> e.callee == Some(value))
      && (Silent(block, "Exten") && Silent(block, "DNID") ==> e.callee == None)
  {
    GetMeaning(block, "Event");
    GetMeaning(block, "CallerIDNum");
    GetMeaning(block, "CallerID");
    GetMeaning(block, "Uniqueid");
    GetMeaning(block, "Linkedid");
    GetMeaning(block, "Exten");
    GetMeaning(block, "DNID");
  }

  /** How a block is sorted, from its headers alone: a login is accepted, or refused, and only an event
      of the three kinds that is neither is posted. */
  lemma BlockKinds(block: Block)
    ensures AcceptsLogin(block) <==>
              Says(block, "Response", "Success")
              && exists m :: Says(block, "Message", m) && Includes(m, "Authentication accepted")
    ensures RefusesLogin(block) <==> Says(block, "Response", "Error")
    ensures |ForwardedBy(block)| == 1 <==>
              && !AcceptsLogin(block) && !RefusesLogin(block)
              && (Says(block, "Event", "Newchannel") || Says(block, "Event", "Newstate")
                  || Says(block, "Event", "Hangup"))
    ensures ForwardedBy(block) == [] || ForwardedBy(block) == [Normalize(Parse(block))]
  {
    GetMeaning(block, "Response");
    GetMeaning(block, "Message");
    GetMeaning(block, "Event");
    EmptyAccepts();
  }

  lemma EmptyAccepts()
    ensures !Includes("", "Authentication accepted")
  {
  }

  lemma RawHeaders(h: Headers, key: string)
    ensures var raw := Raw(h);
      && (key != "Secret" && key != "LocalTestEvent" ==>
            (key in raw <==> key in h) && (key in h ==> raw[key] == Text(h[key])))
      && "Secret" in raw && raw["Secret"] == Text("[REDACTED]")
      && "LocalTestEvent" in raw && raw["LocalTestEvent"] == True
  {
    assert "Secret" != "LocalTestEvent" by { assert |"Secret"| == 6 && |"LocalTestEvent"| == 14; }
  }

  lemma HandlingOne(s: Session, block: Block)
    ensures var r := HandleBlock(s, block);
      && r.forwarded == s.forwarded + ForwardedBy(block)
      && (r.loggedIn <==> s.loggedIn || AcceptsLogin(block))
      && (s.promise != Pending ==> r.promise == s.promise)
      && (s.promise == Pending ==>
            (r.promise == Pending <==> Undecided([block]))
            && (r.promise == Resolved <==> AcceptsLogin(block)))
    ensures forall e :: e in ForwardedBy(block) ==> "Secret" in e.raw && e.raw["Secret"] == Text("[REDACTED]")
                                                    && e.eventType in FORWARDED_EVENTS
  {
    var h := Parse(block);
    if Forwards(h) {
      assert "" !in FORWARDED_EVENTS;
      assert Normalize(h).eventType == Get(h, "Event");
      RawHeaders(h, "Secret");
    }
    assert [block][0] == block;
  }

  /** The login flag is set exactly when some block accepted the login, and the promise stays open
      exactly while no block has decided. */
  lemma {:induction false} LoginMeaning(blocks: seq<Block>)
    ensures var s := HandleAll(START, blocks);
      && (s.loggedIn <==> exists i :: 0 <= i < |blocks| && AcceptsLogin(blocks[i]))
      && (s.promise == Pending <==> Undecided(blocks))
  {
    if blocks != [] {
      var n := |blocks| - 1;
      LoginMeaning(blocks[..n]);
      HandlingOne(HandleAll(START, blocks[..n]), blocks[n]);
      OneMore(blocks[..n], blocks[n], blocks);
    }
  }

  lemma OneMore(before: seq<Block>, b: Block, blocks: seq<Block>)
    requires blocks == before + [b]
    ensures Undecided(blocks) <==> Undecided(before) && Undecided([b])
    ensures (exists i :: 0 <= i < |blocks| && AcceptsLogin(blocks[i]))
       <==> (exists i :: 0 <= i < |before| && AcceptsLogin(before[i])) || AcceptsLogin(b)
  {
    assert blocks[|before|] == b && [b][0] == b;
    assert forall i :: 0 <= i < |before| ==> blocks[i] == before[i];
  }

  /** The message of a block, as its last such header has it; `None` when it has none. */
  function MessageOf(block: Block): Option<string> {
    var h := Parse(block);
    if "Message" in h then Some(h["Message"]) else None
  }

  lemma MessageMeaning(block: Block)
    ensures forall i :: LastWith(block, "Message", i) ==> MessageOf(block) == Some(Value(block[i]))
    ensures MessageOf(block).Some? ==> exists i :: LastWith(block, "Message", i)
  {
    ParseKeepsLastValue(block, "Message");
  }

  lemma DecidingOne(s: Session, block: Block)
    requires s.promise == Pending && !Undecided([block])
    ensures HandleBlock(s, block).promise
         == if AcceptsLogin(block) then Resolved else Rejected(AmiError(MessageOf(block)))
  {
    assert [block][0] == block;
  }

  /** The first block that decides settles the promise for good. */
  lemma {:induction false} FirstDecisionCounts(blocks: seq<Block>, i: nat)
    requires i < |blocks| && Undecided(blocks[..i]) && !Undecided([blocks[i]])
    ensures var s := HandleAll(START, blocks);
      s.promise == if AcceptsLogin(blocks[i]) then Resolved else Rejected(AmiError(MessageOf(blocks[i])))
    decreases |blocks|
  {
    var n := |blocks| - 1;
    if i < n {
      HandlingOne(HandleAll(START, blocks[..n]), blocks[n]);
      assert blocks[..n][..i] == blocks[..i];
      FirstDecisionCounts(blocks[..n], i);
    } else {
      LoginMeaning(blocks[..n]);
      DecidingOne(HandleAll(START, blocks[..n]), blocks[n]);
    }
  }

  /** When no data event ends inside a block, the connection behaves as if the peer's whole output
      had arrived in a single event. */
  lemma ConnectionIgnoresChunking(chunks: seq<string>)
    requires NoCutInsideBlock(chunks)
    ensures HandleAll(START, Handled(chunks)) == HandleAll(START, Handled([Received(chunks)]))
  {
    ChunkingTheorem(chunks);
    var whole := [Received(chunks)];
    assert whole[..0] == [];
    assert Received(whole) == Received(chunks);
    ChunkingTheorem(whole);
  }

  /** A header written as `key: value` is read back as that key and that value exactly when the key
      is non-empty and does not itself contain ": ". */
  lemma HeaderRoundTrip(key: string, value: string)
    requires key != "__proto__"
    ensures var line := key + ": " + value;
      key != "" && !Includes(key, ": ") <==> IsHeader(line) && Key(line) == key && Value(line) == value
  {
    var line := key + ": " + value;
    assert line[..|key|] == key && line[|key| + 2..] == value;
    assert OccursAt(line, ": ", |key|);
    forall j: nat | j < |key| ensures OccursAt(line, ": ", j) <==> OccursAt(key, ": ", j) {
      SeparatorInKey(key, value, j);
    }
    if Includes(key, ": ") {
      var i :| 0 <= i <= |key| && OccursAt(key, ": ", i);
      assert OccursAt(line, ": ", i);
    } else {
      assert IndexOf(line, ": ") == |key|;
    }
  }

  lemma SeparatorInKey(key: string, value: string, j: nat)
    requires j < |key|
    ensures OccursAt(key + ": " + value, ": ", j) <==> OccursAt(key, ": ", j)
  {
    var line := key + ": " + value;
    if j + 2 <= |key| {
      assert line[j..j + 2] == key[j..j + 2];
    } else {
      assert line[j..j + 2][1] == ':' && ": "[1] == ' ';
    }
  }

  lemma NoColon(s: string)
    requires ':' !in s
    ensures !Includes(s, ": ")
  {
    forall i ensures !OccursAt(s, ": ", i) {
      assert 0 <= i && i + 2 <= |s| ==> s[i..i + 2][0] == s[i];
    }
  }

  const RESPONSE := "Response"
  const MESSAGE := "Message"
  const SUCCESS := "Success"
  const ACCEPTED := "Authentication accepted"

  lemma LoginHeaders(r: string, m: string)
    requires r == RESPONSE + ": " + SUCCESS && m == MESSAGE + ": " + ACCEPTED
    ensures Parse([r]) == map[RESPONSE := SUCCESS]
    ensures Parse([m]) == map[MESSAGE := ACCEPTED]
    ensures Parse([r, m]) == map[RESPONSE := SUCCESS, MESSAGE := ACCEPTED]
  {
    LoginParts();
    HeaderRoundTrip(RESPONSE, SUCCESS);
    HeaderRoundTrip(MESSAGE, ACCEPTED);
    ParseOne(r);
    ParseOne(m);
    assert [r, m][..1] == [r];
  }

  lemma LoginDecisions(r: string, m: string)
    requires r == RESPONSE + ": " + SUCCESS && m == MESSAGE + ": " + ACCEPTED
    ensures Accepts(Parse([r, m]))
    ensures HandleBlock(START, [r]) == START
    ensures HandleBlock(START, [m]) == START
  {
    LoginHeaders(r, m);
    LoginParts();
    assert OccursAt(ACCEPTED, ACCEPTED, 0);
    MissingMessage(Parse([r]));
  }

  lemma ParseOne(line: string)
    ensures Parse([line]) == if IsHeader(line) then map[Key(line) := Value(line)] else map[]
  {
    assert [line][..0] == [];
  }

  lemma LoginParts()
    ensures RESPONSE != MESSAGE && RESPONSE != "__proto__" && MESSAGE != "__proto__"
    ensures RESPONSE != "Event" && MESSAGE != "Event" && SUCCESS != "Error"
    ensures !Includes(RESPONSE, ": ") && !Includes(MESSAGE, ": ")
  {
    assert |RESPONSE| == 8 && |MESSAGE| == 7 && |"Event"| == 5 && |SUCCESS| == 7 && |"Error"| == 5;
    assert |"__proto__"| == 9;
    NoColon(RESPONSE);
    NoColon(MESSAGE);
  }

  lemma SingleLines(r: string, m: string)
    requires r != "" && m != ""
    ensures Blocks([r]) == [[r]]
    ensures Blocks([m, ""]) == [[m]]
    ensures Blocks([r, m, ""]) == [[r, m]]
  {
    var none: seq<string> := [];
    assert [r][1..] == none && none + [r] == [r];
    assert BlocksFrom(none, [r]) == BlocksFrom([r], none);
    CollectBlock([], [m], []);
    CollectBlock([], [r, m], []);
    assert [m] + [""] + none == [m, ""] && [r, m] + [""] + none == [r, m, ""];
    assert none + [m] == [m] && none + [r, m] == [r, m];
  }

  lemma LoginBytes(r: string, m: string, a: string, b: string)
    requires !HasCrlf(r) && !HasCrlf(m)
    requires a == r + CRLF + "" && b == m + CRLF + (CRLF + "")
    ensures Lines(a) == [r] && Tail(a) == ""
    ensures Lines(b) == [m, ""]
    ensures Lines(a + b) == [r, m, ""]
  {
    SplitLine(r, "");
    SplitLine(m, CRLF + "");
    assert "" + CRLF + "" == CRLF + "";
    SplitLine("", "");
    FeedResumes(a, b);
    assert "" + b == b;
  }

  /** A cut inside a block is observable: the same bytes log in when they arrive together and
      never log in when one event ends between the two headers. */
  lemma CutLoginIsMissed() returns (a: string, b: string)
    ensures HandleAll(START, Handled([a + b])).promise == Resolved
    ensures HandleAll(START, Handled([a, b])) == START
  {
    var r, m := RESPONSE + ": " + SUCCESS, MESSAGE + ": " + ACCEPTED;
    NoReturn(RESPONSE, SUCCESS);
    NoReturn(MESSAGE, ACCEPTED);
    a, b := r + CRLF + "", m + CRLF + (CRLF + "");
    SplitLogin(r, m, a, b);
  }

  lemma NoReturn(key: string, value: string)
    requires '\r' !in key && '\r' !in value
    ensures !HasCrlf(key + ": " + value)
  {
    assert '\r' !in key + ": " + value;
  }

  lemma SplitLogin(r: string, m: string, a: string, b: string)
    requires r == RESPONSE + ": " + SUCCESS && m == MESSAGE + ": " + ACCEPTED
    requires !HasCrlf(r) && !HasCrlf(m)
    requires a == r + CRLF + "" && b == m + CRLF + (CRLF + "")
    ensures HandleAll(START, Handled([a + b])).promise == Resolved
    ensures HandleAll(START, Handled([a, b])) == START
  {
    LoginBytes(r, m, a, b);
    SingleLines(r, m);
    TwoEvents(a, b);
    assert "" + b == b;
    LoginDecisions(r, m);
    HandleAllAppend(START, [[r]], [[m]]);
    HandleAllOne([r]);
    HandleAllOne([m]);
    HandleAllOne([r, m]);
  }

  lemma HandleAllOne(block: Block)
    ensures HandleAll(START, [block]) == HandleBlock(START, block)
  {
    var none: seq<Block> := [];
    assert [block][..0] == none;
  }

  lemma TwoEvents(a: string, b: string)
    ensures Handled([a + b]) == Blocks(Lines(a + b))
    ensures Handled([a, b]) == Blocks(Lines(a)) + Blocks(Lines(Tail(a) + b))
  {
    var none: seq<string> := [];
    assert [a + b][..0] == none && [a, b][..1] == [a] && [a][..0] == none;
    assert "" + (a + b) == a + b && "" + a == a;
  }

  class AmiConnection {
    var buffer: string
    var loggedIn: bool
    var promise: Promise
    var forwarded: seq<CallEvent>
    ghost var chunks: seq<string>

    ghost function State(): Session
      reads this
    {
      Session(loggedIn, promise, forwarded)
    }

    /** The connection has seen exactly the data events `chunks`. */
    ghost predicate Valid()
      reads this
    {
      && buffer == Tail(Received(chunks))
      && State() == HandleAll(START, Handled(chunks))
    }

    constructor ()
      ensures Valid() && chunks == []
    {
      buffer, loggedIn, promise, forwarded := "", false, Pending, [];
      chunks := [];
    }

    /** `client.on('data', …)` */
    method OnData(data: string)
      requires Valid()
      modifies this
      ensures Valid() && chunks == old(chunks) + [data]
    {
      buffer := buffer + data;
      var lines := Split(buffer);
      buffer := lines[|lines| - 1];
      lines := lines[..|lines| - 1];
      HandleLines(lines);
      EventEffect(chunks, data);
      chunks := chunks + [data];
    }

    /** The outer loop of the data handler. */
    method HandleLines(queued: seq<string>)
      modifies this`loggedIn, this`promise, this`forwarded
      ensures State() == HandleAll(old(State()), Blocks(queued))
    {
      var lines := queued;
      ghost var done: seq<Block> := [];
      while |lines| > 0
        invariant Blocks(queued) == done + Blocks(lines)
        invariant State() == HandleAll(old(State()), done)
      {
        ghost var before := lines;
        var block;
        block, lines := NextBlock(lines);
        Regroup(done, Flush(block), Blocks(lines));
        HandleAllFlush(old(State()), done, block);
        done := done + Flush(block);
        if |block| == 0 { continue; }
        HandleAmiBlock(block);
      }
      assert Blocks(queued) == done;
    }

    /** The inner loop of the data handler: the lines up to the next empty one. */
    static method NextBlock(queued: seq<string>) returns (block: Block, lines: seq<string>)
      requires queued != []
      ensures Blocks(queued) == Flush(block) + Blocks(lines)
      ensures |lines| < |queued|
    {
      block, lines := [], queued;
      while |lines| > 0
        invariant BlocksFrom(block, lines) == Blocks(queued)
        invariant (lines == queued && block == []) || |lines| < |queued|
        decreases |lines|
      {
        var line := lines[0];
        lines := lines[1..];
        if line == "" { return; }
        block := block + [line];
      }
    }

    /** `handleAmiBlock` */
    method HandleAmiBlock(block: Block)
      modifies this`loggedIn, this`promise, this`forwarded
      ensures State() == HandleBlock(old(State()), block)
    {
      var parsed: Headers := map[];
      for i := 0 to |block|
        invariant parsed == Parse(block[..i])
      {
        var line := block[i];
        var idx := IndexOf(line, ": ");
        assert block[..i + 1][..i] == block[..i];
        if idx > 0 && line[..idx] != "__proto__" {
          parsed := parsed[line[..idx] := line[idx + 2..]];
        }
      }
      assert block[..|block|] == block;
      if "Response" in parsed && parsed["Response"] == "Success"
         && "Message" in parsed && Includes(parsed["Message"], "Authentication accepted") {
        loggedIn := true;
        promise := promise.Resolve();
        return;
      }
      MissingMessage(parsed);
      if "Response" in parsed && parsed["Response"] == "Error" {
        promise := promise.Reject(AmiError(if "Message" in parsed then Some(parsed["Message"]) else None));
        return;
      }
      if "Event" in parsed && parsed["Event"] != "" {
        if parsed["Event"] in FORWARDED_EVENTS {
          forwarded := forwarded + [Normalize(parsed)];
        }
      }
    }

    /** `client.on('close', …)`: nothing can leave the promise open after this. */
    method OnClose()
      requires Valid()
      modifies this`promise
      ensures promise == if old(promise) == Pending then Rejected(ClosedBeforeLogin) else old(promise)
      ensures promise == Resolved ==> loggedIn
    {
      LoginMeaning(Handled(chunks));
      ResolvedMeansLoggedIn(Handled(chunks));
      if !loggedIn {
        promise := promise.Reject(ClosedBeforeLogin);
      }
    }
  }

  lemma {:induction false} ResolvedMeansLoggedIn(blocks: seq<Block>)
    ensures HandleAll(START, blocks).promise == Resolved ==> HandleAll(START, blocks).loggedIn
  {
    if blocks != [] {
      ResolvedMeansLoggedIn(blocks[..|blocks| - 1]);
      HandlingOne(HandleAll(START, blocks[..|blocks| - 1]), blocks[|blocks| - 1]);
    }
  }

  lemma MissingMessage(h: Headers)
    ensures Accepts(h) ==> "Message" in h
  {
    assert Includes("", "Authentication accepted") ==> false;
  }
}
