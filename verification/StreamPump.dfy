/** The streaming pump: one upstream line in, one rewritten line out, until the
    client leaves, a write fails or the upstream read fails; then one usage row. */
module StreamPump {
  import opened Wrappers
  import opened Outcomes

  datatype ReadError = NoError | Eof | Broken

  /** One turn of the loop, as the world decides it: was the client gone before the
      read, what the read brought, whether the write to the client works, and, once
      the read has failed, whether the client is gone or the watchdog fired.
      `at` is the age of the request in milliseconds. */
  datatype Turn = Turn(goneBefore: bool, line: string, rerr: ReadError, at: int, writes: bool, goneAfter: bool, idle: bool) {
    predicate Arrives() {
      !goneBefore && line != ""
    }

    predicate Forwards() {
      Arrives() && writes
    }

    predicate Ends() {
      goneBefore || (line != "" && !writes) || rerr != NoError
    }
  }

  datatype Usage = Usage(prompt: int, completion: int, cached: int, reasoning: int)

  /** What rewriting a line yields: the frame to send, the usage object it carried,
      if any, and the completion text seen in it, in bytes. */
  datatype Rewritten = Rewritten(frame: string, usage: Option<Usage>, chars: nat)

  datatype Row = Row(status: Status, http: int, usage: Usage, estimated: bool, ttft: Option<int>)

  /** The response as the client sees it. */
  class Client {
    var head: Option<int>
    var frames: seq<string>
    var errors: seq<int>

    constructor ()
      ensures head == None && frames == [] && errors == []
    {
      head, frames, errors := None, [], [];
    }

    /** Only the first header counts. */
    method WriteHeader()
      modifies this
      ensures head == (if old(head).None? then Some(200) else old(head))
      ensures frames == old(frames) && errors == old(errors)
    {
      if head.None? {
        head := Some(200);
      }
    }

    method WriteError(status: int)
      modifies this
      ensures head == (if old(head).None? then Some(status) else old(head))
      ensures frames == old(frames) && errors == old(errors) + [status]
    {
      if head.None? {
        head := Some(status);
      }
      errors := errors + [status];
    }

    method Write(frame: string, works: bool)
      modifies this
      ensures head == old(head) && errors == old(errors)
      ensures frames == if works then old(frames) + [frame] else old(frames)
    {
      if works {
        frames := frames + [frame];
      }
    }
  }

  function EstimateTokens(chars: nat): (t: nat)
    ensures 4 * t - 3 <= chars <= 4 * t
  {
    (chars + 3) / 4
  }

  // ----- what should come of a sequence of turns -------------------------------------------

  /** The turns in which a line arrived, in order. */
  ghost function Arrived(ts: seq<Turn>): (a: seq<Turn>)
    ensures forall i :: 0 <= i < |a| ==> a[i] in ts && a[i].Arrives()
    ensures |a| <= |ts|
  {
    if ts == [] then [] else Arrived(ts[..|ts| - 1]) + if ts[|ts| - 1].Arrives() then [ts[|ts| - 1]] else []
  }

  ghost function Forwarded(ts: seq<Turn>): (a: seq<Turn>)
  {
    if ts == [] then [] else Forwarded(ts[..|ts| - 1]) + if ts[|ts| - 1].Forwards() then [ts[|ts| - 1]] else []
  }

  ghost function Frames(a: seq<Turn>, rewrite: string -> Rewritten): (f: seq<string>)
    ensures |f| == |a| && forall i :: 0 <= i < |a| ==> f[i] == rewrite(a[i].line).frame
  {
    seq(|a|, i requires 0 <= i < |a| => rewrite(a[i].line).frame)
  }

  /** u is what the last line that carries usage says; none if no line does. */
  ghost predicate LastUsage(a: seq<Turn>, rewrite: string -> Rewritten, u: Option<Usage>) {
    if u.None? then forall i :: 0 <= i < |a| ==> rewrite(a[i].line).usage.None?
    else exists i :: 0 <= i < |a| && rewrite(a[i].line).usage == u
                     && forall j :: i < j < |a| ==> rewrite(a[j].line).usage.None?
  }

  ghost function Chars(a: seq<Turn>, rewrite: string -> Rewritten): nat {
    if a == [] then 0 else Chars(a[..|a| - 1], rewrite) + rewrite(a[|a| - 1].line).chars
  }

  /** The first turn that ends the stream. */
  ghost predicate EndsAt(ts: seq<Turn>, k: nat) {
    k < |ts| && ts[k].Ends() && forall i :: 0 <= i < k ==> !ts[i].Ends()
  }

  /** The row tells the client's side of the story. */
  ghost predicate Honest(client: Client, row: Row)
    reads client
  {
    && (row.status == Cancelled ==> row.http == 499 && client.errors == [])
    && (row.status != Cancelled ==> row.http == if client.head.None? then 200 else client.head.value)
    && (client.errors != [] ==> client.errors == [row.http] && client.frames == [])
    && (row.http in {502, 504} <==> client.errors != [])
    && (client.errors != [] ==> row.status == if row.http == 504 then UpstreamTimeout else UpstreamError)
  }

  lemma TracksAre(a: seq<Turn>, rewrite: string -> Rewritten, seen: Option<Usage>, outChars: nat, ttft: Option<int>)
    requires Tracks(a, rewrite, seen, outChars, ttft)
    ensures LastUsage(a, rewrite, seen) && outChars == Chars(a, rewrite)
    ensures ttft == if a == [] then None else Some(FirstAge(a[0].at))
  {
  }

  lemma NothingYet(ts: seq<Turn>, rewrite: string -> Rewritten)
    ensures Arrived(ts[..0]) == [] && Forwarded(ts[..0]) == [] && Frames([], rewrite) == []
    ensures LastUsage([], rewrite, None) && Chars([], rewrite) == 0 && Tracks([], rewrite, None, 0, None)
  {
  }

  lemma ArrivedMore(ts: seq<Turn>, n: nat)
    requires n < |ts|
    ensures Arrived(ts[..n + 1]) == if ts[n].Arrives() then Arrived(ts[..n]) + [ts[n]] else Arrived(ts[..n])
    ensures Forwarded(ts[..n + 1]) == if ts[n].Forwards() then Forwarded(ts[..n]) + [ts[n]] else Forwarded(ts[..n])
  {
    assert ts[..n + 1][..n] == ts[..n];
  }

  lemma FramesMore(ts: seq<Turn>, n: nat, rewrite: string -> Rewritten)
    requires n < |ts|
    ensures Arrived(ts[..n + 1]) == if ts[n].Arrives() then Arrived(ts[..n]) + [ts[n]] else Arrived(ts[..n])
    ensures Frames(Forwarded(ts[..n + 1]), rewrite)
         == if ts[n].Forwards() then Frames(Forwarded(ts[..n]), rewrite) + [rewrite(ts[n].line).frame]
            else Frames(Forwarded(ts[..n]), rewrite)
  {
    hide Frames;
    ArrivedMore(ts, n);
    LineCounts(Forwarded(ts[..n]), ts[n], rewrite);
  }

  lemma LineCounts(a: seq<Turn>, t: Turn, rewrite: string -> Rewritten)
    ensures Chars(a + [t], rewrite) == Chars(a, rewrite) + rewrite(t.line).chars
    ensures Frames(a + [t], rewrite) == Frames(a, rewrite) + [rewrite(t.line).frame]
  {
    assert (a + [t])[..|a|] == a;
  }

  lemma UsageMoves(a: seq<Turn>, t: Turn, rewrite: string -> Rewritten, u: Option<Usage>)
    requires LastUsage(a, rewrite, u)
    ensures LastUsage(a + [t], rewrite, if rewrite(t.line).usage.Some? then rewrite(t.line).usage else u)
  {
    var b := a + [t];
    if rewrite(t.line).usage.Some? {
      assert rewrite(b[|a|].line).usage == rewrite(t.line).usage;
    } else if u.Some? {
      var i :| 0 <= i < |a| && rewrite(a[i].line).usage == u && forall j :: i < j < |a| ==> rewrite(a[j].line).usage.None?;
      assert b[i] == a[i];
    }
  }

  /** Nothing that arrived is dropped but the one line whose write failed. */
  lemma {:induction false} AllForwarded(ts: seq<Turn>, k: nat)
    requires EndsAt(ts, k)
    ensures Forwarded(ts[..k]) == Arrived(ts[..k])
    ensures Forwarded(ts[..k + 1]) == Arrived(ts[..k + 1])
         || (ts[k].Arrives() && !ts[k].writes && Forwarded(ts[..k + 1]) + [ts[k]] == Arrived(ts[..k + 1]))
  {
    AllWritten(ts[..k]);
    ArrivedMore(ts, k);
  }

  lemma {:induction false} AllWritten(ts: seq<Turn>)
    requires forall i :: 0 <= i < |ts| ==> !ts[i].Ends()
    ensures Forwarded(ts) == Arrived(ts)
  {
    if ts != [] {
      AllWritten(ts[..|ts| - 1]);
    }
  }

  // ----- the loop ------------------------------------------------------------------------------

  /** At least a millisecond. */
  function FirstAge(at: int): (age: int)
    ensures age >= 1 && age >= at && (age == 1 || age == at)
  {
    if at < 1 then 1 else at
  }

  /** The deferred last act: one row, from what the loop left behind. */
  method Finish(status: Status, failedBeforeBytes: bool, seen: Option<Usage>, rawChars: nat, outChars: nat, ttft: Option<int>)
      returns (row: Row)
    ensures row.status == status && row.ttft == ttft && row.estimated == seen.None?
    ensures row.usage == if seen.Some? then seen.value else Usage(EstimateTokens(rawChars), EstimateTokens(outChars), 0, 0)
    ensures failedBeforeBytes ==> row.http == if status == UpstreamTimeout then 504 else 502
    ensures !failedBeforeBytes ==> row.http == if status == Cancelled then 499 else 200
  {
    var usage := if seen.Some? then seen.value else Usage(EstimateTokens(rawChars), EstimateTokens(outChars), 0, 0);
    var http := 200;
    if status == Cancelled {
      http := 499;
    }
    if failedBeforeBytes {
      http := if status == UpstreamTimeout then 504 else 502;
    }
    row := Row(status, http, usage, seen.None?, ttft);
  }

  /** How a stream that ended with turn t is to be recorded. */
  ghost function Verdict(t: Turn): Status {
    if t.goneBefore || (t.line != "" && !t.writes) || t.goneAfter then Cancelled
    else if t.idle then UpstreamTimeout
    else if t.rerr == Eof then Ok
    else UpstreamError
  }

  /** The loop's bookkeeping after the turns `a` have brought a line each. */
  ghost predicate Tracks(a: seq<Turn>, rewrite: string -> Rewritten, seen: Option<Usage>, outChars: nat, ttft: Option<int>) {
    && LastUsage(a, rewrite, seen) && outChars == Chars(a, rewrite)
    && ttft == if a == [] then None else Some(FirstAge(a[0].at))
  }

  method TakeLine(t: Turn, rewrite: string -> Rewritten, client: Client,
                  seen: Option<Usage>, outChars: nat, ttft: Option<int>, ghost a: seq<Turn>)
      returns (seen': Option<Usage>, outChars': nat, ttft': Option<int>)
    requires Tracks(a, rewrite, seen, outChars, ttft)
    modifies client
    ensures Tracks(a + [t], rewrite, seen', outChars', ttft')
    ensures client.head == (if old(client.head).None? then Some(200) else old(client.head)) && client.errors == old(client.errors)
    ensures client.frames == old(client.frames) + if t.writes then [rewrite(t.line).frame] else []
  {
    hide LastUsage, Chars, Frames;
    seen', outChars', ttft' := seen, outChars, ttft;
    client.WriteHeader();
    if ttft == None {
      ttft' := Some(FirstAge(t.at));
    }
    var r := rewrite(t.line);
    UsageMoves(a, t, rewrite, seen);
    LineCounts(a, t, rewrite);
    if r.usage.Some? {
      seen' := r.usage;
    }
    outChars' := outChars + r.chars;
    client.Write(r.frame, t.writes);
  }

  /** A read has failed: why, and what the client is told if nothing was sent yet. */
  method EndStream(t: Turn, headerWritten: bool, client: Client) returns (status: Status, failedBeforeBytes: bool)
    requires t.rerr != NoError && !t.goneBefore && (t.line != "" ==> t.writes)
    requires client.errors == [] && client.head == if headerWritten then Some(200) else None
    modifies client
    ensures status == Verdict(t) && client.frames == old(client.frames)
    ensures failedBeforeBytes == (!headerWritten && status in {UpstreamTimeout, UpstreamError})
    ensures client.errors == if failedBeforeBytes then [if status == UpstreamTimeout then 504 else 502] else []
    ensures client.head == if headerWritten then Some(200) else if failedBeforeBytes then Some(client.errors[0]) else None
  {
    failedBeforeBytes := false;
    if t.goneAfter {
      status := Cancelled;
    } else if t.idle {
      failedBeforeBytes := !headerWritten;
      if failedBeforeBytes {
        client.WriteError(504);
      }
      status := UpstreamTimeout;
    } else if t.rerr == Eof {
      status := Ok;
    } else {
      failedBeforeBytes := !headerWritten;
      if failedBeforeBytes {
        client.WriteError(502);
      }
      status := UpstreamError;
    }
  }

  /** A row made of how the stream ended tells the client's side of the story. */
  lemma RowIsHonest(client: Client, row: Row, failedBeforeBytes: bool)
    requires failedBeforeBytes ==>
      && row.status in {UpstreamTimeout, UpstreamError} && row.http == (if row.status == UpstreamTimeout then 504 else 502)
      && client.errors == [row.http] && client.head == Some(row.http) && client.frames == []
    requires !failedBeforeBytes ==>
      client.errors == [] && client.head in {None, Some(200)} && row.http == if row.status == Cancelled then 499 else 200
    ensures Honest(client, row) && Possible(Streamed(row.status, row.http))
  {
  }

  /** One turn of the loop: the line taken, if one came, and the end of the stream noticed. */
  method TakeTurn(t: Turn, rewrite: string -> Rewritten, client: Client,
                  seen: Option<Usage>, outChars: nat, ttft: Option<int>, ghost a: seq<Turn>)
      returns (ended: bool, status: Status, failedBeforeBytes: bool, seen': Option<Usage>, outChars': nat, ttft': Option<int>)
    requires Tracks(a, rewrite, seen, outChars, ttft)
    requires client.errors == [] && client.head == if a != [] then Some(200) else None
    modifies client
    ensures ended == t.Ends() && (ended ==> status == Verdict(t))
    ensures Tracks(if t.Arrives() then a + [t] else a, rewrite, seen', outChars', ttft')
    ensures client.frames == if t.Forwards() then old(client.frames) + [rewrite(t.line).frame] else old(client.frames)
    ensures failedBeforeBytes == (ended && a == [] && !t.Arrives() && status in {UpstreamTimeout, UpstreamError})
    ensures client.errors == (if failedBeforeBytes then [if status == UpstreamTimeout then 504 else 502] else [])
    ensures client.head == if a != [] || t.Arrives() then Some(200) else if failedBeforeBytes then Some(client.errors[0]) else None
  {
    hide Tracks;
    seen', outChars', ttft' := seen, outChars, ttft;
    ended, status, failedBeforeBytes := true, Cancelled, false;
    if t.goneBefore {
      return;
    }
    if t.line != "" {
      seen', outChars', ttft' := TakeLine(t, rewrite, client, seen, outChars, ttft, a);
      if !t.writes {
        return;
      }
    }
    if t.rerr != NoError {
      status, failedBeforeBytes := EndStream(t, client.head.Some?, client);
      return;
    }
    ended := false;
  }

  method Pump(turns: seq<Turn>, rewrite: string -> Rewritten, client: Client)
      returns (status: Status, failedBeforeBytes: bool, seen: Option<Usage>, outChars: nat, ttft: Option<int>, ghost k: nat)
    requires exists i :: 0 <= i < |turns| && turns[i].Ends()
    requires client.head == None && client.frames == [] && client.errors == []
    modifies client
    ensures EndsAt(turns, k) && client.frames == Frames(Forwarded(turns[..k + 1]), rewrite)
    ensures Tracks(Arrived(turns[..k + 1]), rewrite, seen, outChars, ttft)
    ensures status == Verdict(turns[k])
    ensures var arrived := Arrived(turns[..k + 1]);
      && failedBeforeBytes == (arrived == [] && status in {UpstreamTimeout, UpstreamError})
      && client.errors == (if failedBeforeBytes then [if status == UpstreamTimeout then 504 else 502] else [])
      && client.head == if arrived != [] then Some(200) else if failedBeforeBytes then Some(client.errors[0]) else None
  {
    hide Arrived, Forwarded, Frames, Tracks, Verdict, Turn.Ends, Turn.Arrives, Turn.Forwards;
    NothingYet(turns, rewrite);
    failedBeforeBytes, seen, outChars, ttft, status := false, None, 0, None, Ok;
    var i := 0;
    ghost var a: seq<Turn>, f: seq<string> := [], [];
    while true
      invariant 0 <= i <= |turns|
      invariant forall j :: 0 <= j < i ==> !turns[j].Ends()
      invariant !failedBeforeBytes && client.errors == []
      invariant a == Arrived(turns[..i]) && f == Frames(Forwarded(turns[..i]), rewrite)
      invariant client.head == if a != [] then Some(200) else None
      invariant client.frames == f && Tracks(a, rewrite, seen, outChars, ttft)
      decreases |turns| - i
    {
      assert i < |turns|;
      k := i;
      FramesMore(turns, i, rewrite);
      var ended;
      ended, status, failedBeforeBytes, seen, outChars, ttft := TakeTurn(turns[i], rewrite, client, seen, outChars, ttft, a);
      a, f := Arrived(turns[..i + 1]), client.frames;
      if ended {
        return;
      }
      i := i + 1;
    }
  }

  /** For every sequence of reads, departures, write failures and watchdog firings:
      the client gets the rewritten lines in order, one for each line that arrived up
      to the first failed write; an error document only when no line arrived; and the
      one row tells the same story, with the tokens of the last usage-bearing line. */
  method PumpStream(turns: seq<Turn>, rewrite: string -> Rewritten, rawChars: nat, client: Client)
      returns (rows: seq<Row>, ghost k: nat)
    requires exists i :: 0 <= i < |turns| && turns[i].Ends()
    requires client.head == None && client.frames == [] && client.errors == []
    modifies client
    ensures EndsAt(turns, k)
    ensures client.frames == Frames(Forwarded(turns[..k + 1]), rewrite)
    ensures |rows| == 1
    ensures var row, arrived := rows[0], Arrived(turns[..k + 1]);
      && Honest(client, row)
      && row.status == Verdict(turns[k])
      && Possible(Streamed(row.status, row.http))
      && (client.head == Some(200) <==> arrived != [])
      && (client.errors != [] <==> arrived == [] && row.status in {UpstreamTimeout, UpstreamError})
      && row.ttft == (if arrived == [] then None else Some(FirstAge(arrived[0].at)))
      && (exists u: Option<Usage> :: LastUsage(arrived, rewrite, u) && row.estimated == u.None?
            && row.usage == if u.Some? then u.value
                            else Usage(EstimateTokens(rawChars), EstimateTokens(Chars(arrived, rewrite)), 0, 0))
  {
    hide Arrived, Forwarded, Frames, LastUsage, Chars, Honest, Possible, Tracks, Verdict;
    rows := [];
    var status, failedBeforeBytes, seen, outChars, ttft;
    status, failedBeforeBytes, seen, outChars, ttft, k := Pump(turns, rewrite, client);
    TracksAre(Arrived(turns[..k + 1]), rewrite, seen, outChars, ttft);
    var row := Finish(status, failedBeforeBytes, seen, rawChars, outChars, ttft);
    if failedBeforeBytes {
      NothingSent(turns[..k + 1], rewrite);
    }
    RowIsHonest(client, row, failedBeforeBytes);
    rows := rows + [row];
  }

  lemma {:induction false} NothingSent(ts: seq<Turn>, rewrite: string -> Rewritten)
    requires Arrived(ts) == []
    ensures Forwarded(ts) == [] && Frames(Forwarded(ts), rewrite) == []
  {
    if ts != [] {
      NothingSent(ts[..|ts| - 1], rewrite);
    }
  }
}
