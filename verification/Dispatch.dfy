/** What a request comes to, with all that the client is sent on the way: turned away at
    the door, left without a slot, or handed to dispatch. */
module Dispatch {
  import opened Wrappers
  import opened Outcomes
  import StreamPump
  import Dialect

  /** The body of a request: no JSON object, or one with a stream flag, if it has one, that
      is or is not a boolean, and a model, "" if it names none. */
  datatype Asked = NotAnObject | Fields(flag: Option<Option<bool>>, model: string)

  /** How the call to the server goes: an error, or an answer with its code, and then the
      stream or the body. */
  datatype Call =
    | CallError(clientGone: bool, deadline: bool, timeout: bool)
    | Answer(code: int, body: Dialect.Body, turns: seq<StreamPump.Turn>)

  /** What dispatch meets: the address elected at that moment, whether the request can be
      encoded and built, and the call. */
  datatype World = World(addr: string, encodes: bool, builds: bool, call: Call)

  ghost predicate Silent(client: StreamPump.Client)
    reads client
  {
    client.head == None && client.frames == [] && client.errors == []
  }

  /** A departure of the client: on record as 499. A server may answer 499 as well. */
  predicate Departed(o: Outcome) {
    o.Finish? && o.status == Cancelled
  }

  /** Unless a stream was under way, the code on record is the one the client was sent, in
      an error document unless the server answered; and a client that left was sent nothing. */
  ghost predicate Told(client: StreamPump.Client, o: Outcome)
    reads client
  {
    && (if Departed(o) then client.head == None && o.http == 499 else client.head == Some(o.http))
    && (client.errors == if Departed(o) || (o.Finish? && o.status == Ok) then [] else [o.http])
    && (client.errors != [] || Departed(o) ==> client.frames == [])
  }

  /** The door: a body that says what is wanted, and a name that resolves. */
  method Admit(asked: Asked, resolves: bool, client: StreamPump.Client) returns (o: Option<Outcome>, stream: bool)
    requires Silent(client)
    modifies client
    ensures o.None? <==> asked.Fields? && asked.flag != Some(None) && asked.model != "" && resolves
    ensures o.None? ==> Silent(client) && (stream <==> asked.flag == Some(Some(true)))
    ensures o.Some? ==> Told(client, o.value) && o.value.Rejected?
    ensures o.Some? ==> o.value.http == if asked.NotAnObject? || asked.flag == Some(None) || asked.model == "" then 400 else 404
  {
    stream := false;
    if asked.NotAnObject? {
      client.WriteError(400);
      return Some(Rejected(400)), stream;
    }
    if asked.flag.Some? {
      if asked.flag.value.None? {
        client.WriteError(400);
        return Some(Rejected(400)), stream;
      }
      stream := asked.flag.value.value;
    }
    if asked.model == "" {
      client.WriteError(400);
      return Some(Rejected(400)), stream;
    }
    if !resolves {
      client.WriteError(404);
      return Some(Rejected(404)), stream;
    }
    o := None;
  }

  /** No slot: the client has left, the server went down, or the queue was too slow. */
  method LoseSlot(clientGone: bool, up: bool, client: StreamPump.Client) returns (o: Outcome)
    requires Silent(client)
    modifies client
    ensures o == LostOutcome(clientGone, up) && Told(client, o)
    ensures o.http == 499 <==> clientGone
    ensures o.http == 429 <==> !clientGone && up
  {
    if clientGone {
      return Finish(Cancelled, 499);
    }
    if !up {
      client.WriteError(503);
      return Rejected(503);
    }
    client.WriteError(429);
    o := Rejected(429);
  }

  /** A slot, but the server went down meanwhile. */
  method CheckUp(up: bool, client: StreamPump.Client) returns (o: Option<Outcome>)
    requires Silent(client)
    modifies client
    ensures o == if up then None else Some(DOWN)
    ensures if up then Silent(client) else Told(client, DOWN)
  {
    if !up {
      client.WriteError(503);
      return Some(Rejected(503));
    }
    o := None;
  }

  /** A call that failed before any answer. */
  method FailUpstream(clientGone: bool, deadline: bool, timeout: bool, client: StreamPump.Client) returns (o: Outcome)
    requires Silent(client)
    modifies client
    ensures o == OutcomeOf(CallFailed(clientGone, deadline, timeout)) && Told(client, o)
    ensures o.Finish? && o.status != Ok
    ensures o.http == 499 <==> clientGone && !deadline
    ensures o.http == 504 <==> deadline || (timeout && !clientGone)
  {
    if clientGone && !deadline {
      return Finish(Cancelled, 499);
    }
    if timeout || deadline {
      client.WriteError(504);
      return Finish(UpstreamTimeout, 504);
    }
    client.WriteError(502);
    o := Finish(UpstreamError, 502);
  }

  /** The way out that a world leads to. */
  ghost predicate LeadsTo(w: World, stream: bool, b: Branch) {
    match b
    case NoAddress => w.addr == ""
    case EncodeFailed => w.addr != "" && !w.encodes
    case BuildFailed => w.addr != "" && w.encodes && !w.builds
    case CallFailed(gone, deadline, timeout) => Calls(w) && w.call == CallError(gone, deadline, timeout)
    case Answered5xx => Calls(w) && w.call.Answer? && w.call.code >= 500
    case Answered4xx(code) => Calls(w) && w.call.Answer? && 400 <= code < 500 && w.call.code == code
    case Streamed(status, _) => Calls(w) && stream && Good(w.call)
      && exists k: nat :: StreamPump.EndsAt(w.call.turns, k) && status == StreamPump.Verdict(w.call.turns[k])
    case BodyFailed(gone, timeout) => Calls(w) && !stream && Good(w.call) && w.call.body == Dialect.Failed(gone, timeout)
    case Buffered(code) => Calls(w) && !stream && Good(w.call) && w.call.body.Read? && w.call.code == code
  }

  ghost predicate Calls(w: World) {
    w.addr != "" && w.encodes && w.builds
  }

  ghost predicate Good(call: Call) {
    call.Answer? && call.code < 400
  }

  /** The server answered below 500, and what had to follow came through. */
  ghost predicate WentWell(w: World, stream: bool) {
    && Calls(w) && w.call.Answer? && w.call.code < 500
    && (w.call.code < 400 && !stream ==> w.call.body.Read?)
    && (w.call.code < 400 && stream ==> exists k: nat :: StreamPump.EndsAt(w.call.turns, k) && EndsWell(w.call.turns[k]))
  }

  /** The last read of a stream that came through: its end, with the client still there. */
  ghost predicate EndsWell(t: StreamPump.Turn) {
    !t.goneBefore && !t.goneAfter && !t.idle && t.rerr == StreamPump.Eof && (t.line != "" ==> t.writes)
  }

  lemma VerdictIsOk(turns: seq<StreamPump.Turn>, k: nat)
    requires StreamPump.EndsAt(turns, k)
    ensures StreamPump.Verdict(turns[k]) == Ok <==> exists l: nat :: StreamPump.EndsAt(turns, l) && EndsWell(turns[l])
  {
    assert forall l: nat :: StreamPump.EndsAt(turns, l) ==> l == k;
  }

  /** One way out for every world, with the row or rejection that goes with it: on record
      is what the client was sent, and success exactly if the server answered below 500 and
      the body or stream came through. */
  method Dispatch(w: World, stream: bool, js: Dialect.Json, e: Dialect.Endpoint, reply: string, text: string, rawChars: nat,
                  client: StreamPump.Client) returns (o: Outcome, ghost b: Branch)
    requires Silent(client)
    requires stream && Good(w.call) ==> exists i :: 0 <= i < |w.call.turns| && w.call.turns[i].Ends()
    modifies client
    ensures Possible(b) && LeadsTo(w, stream, b) && o == OutcomeOf(b)
    ensures !b.Streamed? ==> Told(client, o)
    ensures b.Streamed? && !Departed(o) ==> o.http == if client.head.None? then 200 else client.head.value
    ensures (o.Finish? && o.status == Ok) <==> WentWell(w, stream)
    ensures b.Answered4xx? ==> client.frames == [text]
  {
    if w.addr == "" {
      client.WriteError(503);
      return Finish(UpstreamError, 503), NoAddress;
    }
    if !w.encodes {
      client.WriteError(500);
      return Rejected(500), EncodeFailed;
    }
    if !w.builds {
      client.WriteError(500);
      return Rejected(500), BuildFailed;
    }
    if w.call.CallError? {
      o := FailUpstream(w.call.clientGone, w.call.deadline, w.call.timeout, client);
      return o, CallFailed(w.call.clientGone, w.call.deadline, w.call.timeout);
    }
    if w.call.code >= 500 {
      client.WriteError(502);
      return Finish(UpstreamError, 502), Answered5xx;
    }
    if w.call.code >= 400 {
      client.head := Some(w.call.code);
      client.Write(text, true);
      return Finish(Ok, w.call.code), Answered4xx(w.call.code);
    }
    if stream {
      o, b := Stream(w.call.turns, js, e, reply, rawChars, client);
    } else {
      o, b := Buffer(w.call.code, w.call.body, js, e, reply, rawChars, client);
    }
  }

  method Stream(turns: seq<StreamPump.Turn>, js: Dialect.Json, e: Dialect.Endpoint, reply: string, rawChars: nat,
                client: StreamPump.Client) returns (o: Outcome, ghost b: Branch)
    requires Silent(client) && exists i :: 0 <= i < |turns| && turns[i].Ends()
    modifies client
    ensures b.Streamed? && Possible(b) && o == OutcomeOf(b) && o.Finish?
    ensures exists k: nat :: StreamPump.EndsAt(turns, k) && b.status == StreamPump.Verdict(turns[k])
    ensures !Departed(o) ==> o.http == if client.head.None? then 200 else client.head.value
    ensures o.status == Ok <==> exists k: nat :: StreamPump.EndsAt(turns, k) && EndsWell(turns[k])
  {
    var rows;
    ghost var k;
    rows, k := StreamPump.PumpStream(turns, Dialect.FrameOf(js, e, reply), rawChars, client);
    VerdictIsOk(turns, k);
    var row := rows[0];
    return Finish(row.status, row.http), Streamed(row.status, row.http);
  }

  method Buffer(code: int, body: Dialect.Body, js: Dialect.Json, e: Dialect.Endpoint, reply: string, rawChars: nat,
                client: StreamPump.Client) returns (o: Outcome, ghost b: Branch)
    requires Silent(client) && code < 400
    modifies client
    ensures b == Dialect.BranchOf(body, code) && Possible(b) && o == OutcomeOf(b) && Told(client, o)
    ensures (o.Finish? && o.status == Ok) <==> body.Read?
  {
    var row := Dialect.RespondBuffered(js, e, code, body, reply, rawChars, client);
    return Finish(row.status, row.http), Dialect.BranchOf(body, code);
  }
}
