/** The two completions dialects: a response carries the name the client asked for, and
    nothing else of it is touched. What JSON text means is left to the library. */
module Dialect {
  import opened Wrappers
  import opened Strings
  import opened StreamPump
  import opened Outcomes

  /** An object as Go decodes it into raw messages: its fields, undecoded. */
  type Fields = map<string, string>

  /** The JSON library, and what is read out of usage and text fields. Encoding an object
      leaves its values as `compact` makes them: blanks gone, some characters escaped.
      `mentions` is the shortcut that spares the parsing of frames without any
      interesting key. */
  datatype Json = Json(
    decode: string -> Option<Fields>, encode: Fields -> string, quote: string -> string, compact: string -> string,
    usage: string -> Option<Usage>, deltaText: string -> nat, choicesText: string -> nat, messageText: string -> nat, outputText: string -> nat,
    mentions: string -> bool)
  {
    function Compacted(f: Fields): Fields {
      map k | k in f :: compact(f[k])
    }

    /** Compacting changes how a value is written, not what it means, and nothing that the
        library has written itself. */
    ghost predicate Tidy() {
      && (forall x :: usage(compact(x)) == usage(x))
      && (forall x :: decode(compact(x)) == if decode(x).Some? then Some(Compacted(decode(x).value)) else None)
      && (forall x :: compact(quote(x)) == quote(x))
      && (forall f :: compact(encode(f)) == encode(f))
    }

    ghost predicate ReadsBack(f: Fields) {
      decode(encode(f)) == Some(Compacted(f))
    }
  }

  datatype Endpoint = Chat | Responses

  // ----- what must come out -----------------------------------------------------------------

  /** g is f under another name: the model field, if any, says `name`, all else is the same. */
  ghost predicate Renamed(f: Fields, g: Fields, name: string) {
    && g.Keys == f.Keys
    && ("model" in f ==> g["model"] == name)
    && forall k :: k in f && k != "model" ==> g[k] == f[k]
  }

  /** The response object embedded in a Responses frame or body, if it names a model. */
  function Embedded(js: Json, f: Fields): Option<Fields> {
    if "response" in f && js.decode(f["response"]).Some? && "model" in js.decode(f["response"]).value
    then js.decode(f["response"]) else None
  }

  /** g is the document f as the client is to see it: renamed, and so is the response
      object inside it, if the dialect has one. */
  ghost predicate Shown(js: Json, e: Endpoint, f: Fields, g: Fields, reply: string) {
    if e == Responses && Embedded(js, f).Some? then
      exists r :: Renamed(Embedded(js, f).value, r, js.quote(reply))
                  && Renamed(f["response" := js.encode(r)], g, js.quote(reply))
    else Renamed(f, g, js.quote(reply))
  }

  predicate Names(js: Json, e: Endpoint, f: Fields) {
    "model" in f || (e == Responses && Embedded(js, f).Some?)
  }

  /** Usage stands at the top level or in the response object; at the top level it wins. */
  function UsageIn(js: Json, e: Endpoint, f: Fields): Option<Usage> {
    if "usage" in f && js.usage(f["usage"]).Some? then js.usage(f["usage"])
    else if e == Responses && "response" in f && js.decode(f["response"]).Some? && "usage" in js.decode(f["response"]).value
    then js.usage(js.decode(f["response"]).value["usage"])
    else None
  }

  function TextIn(js: Json, e: Endpoint, f: Fields): nat {
    match e
    case Chat => if "choices" in f then js.choicesText(f["choices"]) else 0
    case Responses => if "delta" in f then js.deltaText(f["delta"]) else 0
  }

  /** The completion text of a body, for the estimate. */
  function BodyText(js: Json, e: Endpoint, f: Fields): nat {
    match e
    case Chat => if "choices" in f then js.messageText(f["choices"]) else 0
    case Responses => if "output" in f then js.outputText(f["output"]) else 0
  }

  function TrimNewline(s: string): string {
    if s != "" && (s[|s| - 1] == '\r' || s[|s| - 1] == '\n') then TrimNewline(s[..|s| - 1]) else s
  }

  /** The payload of an event-stream data line, if it is worth parsing and parses. */
  function Payload(js: Json, line: string): Option<Fields> {
    var t := TrimNewline(line);
    if !("data:" <= t) then None
    else
      var p := TrimSpace(t[5..]);
      if p == "" || p == "[DONE]" || !js.mentions(p) then None else js.decode(p)
  }

  lemma {:induction false} NewlineCut(s: string) returns (k: nat)
    ensures k <= |s| && TrimNewline(s) == s[..k] && forall i :: k <= i < |s| ==> s[i] == '\r' || s[i] == '\n'
  {
    if s != "" && (s[|s| - 1] == '\r' || s[|s| - 1] == '\n') {
      k := NewlineCut(s[..|s| - 1]);
    } else {
      k := |s|;
    }
  }

  /** What a data line carries: the text after the colon without the blanks around it, unless
      it is the end mark. */
  lemma PayloadOfData(js: Json, pre: string, p: string, post: string)
    requires AllBlank(pre) && AllBlank(post) && Tight(p) && p != ""
    ensures Payload(js, "data:" + pre + p + post) == if p != "[DONE]" && js.mentions(p) then js.decode(p) else None
  {
    hide TrimSpace, IsSpace;
    var head := "data:" + pre + p;
    var line := head + post;
    var k := NewlineCut(line);
    SpacesAre('\r');
    SpacesAre('\n');
    assert line[|head| - 1] == p[|p| - 1];
    assert k >= |head|;
    var rest := post[..k - |head|];
    assert AllBlank(rest) by {
      forall i | 0 <= i < |rest| ensures IsSpace(rest[i]) {
        assert rest[i] == post[i];
      }
    }
    assert TrimNewline(line)[5..] == pre + p + rest && TrimNewline(line)[..5] == "data:";
    Trimmed(pre, p, rest);
  }

  /** Nothing is read of any other line, nor of one with nothing on it. */
  lemma NoPayload(js: Json, line: string)
    requires !("data:" <= line) || AllBlank(line[5..])
    ensures Payload(js, line) == None
  {
    hide IsSpace;
    var k := NewlineCut(line);
    if "data:" <= TrimNewline(line) {
      assert "data:" <= line;
      var rest := line[5..k];
      forall i | 0 <= i < |rest| ensures IsSpace(rest[i]) {
        assert rest[i] == line[5..][i];
      }
      NothingLeft(rest);
      assert rest == TrimNewline(line)[5..];
    }
  }

  /** The document that comes out, and the frame made of it: what StreamPump is given as
      its rewriting for a dialect and an asked name. */
  function Retitled(js: Json, e: Endpoint, f: Fields, reply: string): Fields {
    var g := if "model" in f then f["model" := js.quote(reply)] else f;
    if e == Responses && Embedded(js, f).Some?
    then g["response" := js.encode(Embedded(js, f).value["model" := js.quote(reply)])] else g
  }

  function FrameOf(js: Json, e: Endpoint, reply: string): string -> Rewritten {
    line =>
      var doc := Payload(js, line);
      if doc.None? then Rewritten(line, None, 0)
      else Rewritten(if Names(js, e, doc.value) then "data: " + js.encode(Retitled(js, e, doc.value, reply)) + "\n" else line,
                     UsageIn(js, e, doc.value), TextIn(js, e, doc.value))
  }

  lemma RenamedIsUpdate(f: Fields, g: Fields, name: string)
    ensures Renamed(f, g, name) <==> g == if "model" in f then f["model" := name] else f
  {
  }

  /** The description leaves one document only. */
  lemma RetitledIsShown(js: Json, e: Endpoint, f: Fields, g: Fields, reply: string)
    ensures Shown(js, e, f, g, reply) <==> g == Retitled(js, e, f, reply)
  {
    hide Renamed;
    var name := js.quote(reply);
    RenamedIsUpdate(f, g, name);
    if e == Responses && Embedded(js, f).Some? {
      var inner := Embedded(js, f).value;
      var r := inner["model" := name];
      RenamedIsUpdate(inner, r, name);
      RenamedIsUpdate(f["response" := js.encode(r)], g, name);
      if s :| Renamed(inner, s, name) && Renamed(f["response" := js.encode(s)], g, name) {
        RenamedIsUpdate(inner, s, name);
      }
    }
  }

  // ----- frames ---------------------------------------------------------------------------------

  /** The document with the model set wherever the dialect has it. */
  method Rename(js: Json, e: Endpoint, f: Fields, reply: string) returns (g: Fields, changed: bool)
    ensures changed == Names(js, e, f)
    ensures g == Retitled(js, e, f, reply) && Shown(js, e, f, g, reply)
    ensures !changed ==> g == f
  {
    RetitledIsShown(js, e, f, Retitled(js, e, f, reply), reply);
    g, changed := f, false;
    if "model" in g {
      g := g["model" := js.quote(reply)];
      changed := true;
    }
    if e == Responses && "response" in g {
      var inner := js.decode(g["response"]);
      if inner.Some? && "model" in inner.value {
        var r := inner.value["model" := js.quote(reply)];
        g := g["response" := js.encode(r)];
        changed := true;
      }
    }
  }

  /** One line of the stream. Whatever is not a data line that parses goes through byte by
      byte and counts for nothing; a document that names no model goes through as it came;
      else the client gets it on a line of its own under the name it asked for. */
  method RewriteFrame(js: Json, e: Endpoint, line: string, reply: string) returns (r: Rewritten)
    ensures r == FrameOf(js, e, reply)(line)
    ensures Payload(js, line).None? ==> r == Rewritten(line, None, 0)
    ensures Payload(js, line).Some? ==>
      var f := Payload(js, line).value;
      && r.usage == UsageIn(js, e, f) && r.chars == TextIn(js, e, f)
      && (!Names(js, e, f) ==> r.frame == line)
      && (Names(js, e, f) ==> exists g :: Shown(js, e, f, g, reply) && r.frame == "data: " + js.encode(g) + "\n")
  {
    var doc := Payload(js, line);
    if doc.None? {
      return Rewritten(line, None, 0);
    }
    var f := doc.value;
    var g, changed := Rename(js, e, f, reply);
    var usage: Option<Usage> := None;
    if e == Responses && "response" in f {
      var inner := js.decode(f["response"]);
      if inner.Some? && "usage" in inner.value {
        usage := js.usage(inner.value["usage"]);
      }
    }
    if "usage" in f {
      var top := js.usage(f["usage"]);
      if top.Some? {
        usage := top;
      }
    }
    var chars := 0;
    if e == Chat && "choices" in f {
      chars := js.choicesText(f["choices"]);
    } else if e == Responses && "delta" in f {
      chars := js.deltaText(f["delta"]);
    }
    r := Rewritten(if changed then "data: " + js.encode(g) + "\n" else line, usage, chars);
  }

  lemma TidyValue(js: Json, x: string)
    requires js.Tidy()
    ensures js.usage(js.compact(x)) == js.usage(x)
    ensures js.decode(js.compact(x)) == if js.decode(x).Some? then Some(js.Compacted(js.decode(x).value)) else None
  {
  }

  lemma TidyOutput(js: Json, f: Fields, reply: string)
    requires js.Tidy()
    ensures js.compact(js.encode(f)) == js.encode(f) && js.compact(js.quote(reply)) == js.quote(reply)
  {
  }

  /** Compacting a document on the way leaves its usage where it was. */
  lemma UsageCompacted(js: Json, e: Endpoint, f: Fields)
    requires js.Tidy()
    ensures UsageIn(js, e, js.Compacted(f)) == UsageIn(js, e, f)
    ensures Embedded(js, js.Compacted(f)).Some? <==> Embedded(js, f).Some?
  {
    hide Json.Tidy;
    if "usage" in f {
      TidyValue(js, f["usage"]);
    }
    if "response" in f {
      TidyValue(js, f["response"]);
      var inner := js.decode(f["response"]);
      if inner.Some? && "usage" in inner.value {
        TidyValue(js, inner.value["usage"]);
      }
    }
  }

  /** The response object inside comes back renamed, and with the usage it had. */
  lemma EmbeddedComesBack(js: Json, f: Fields, g: Fields, reply: string)
    requires js.Tidy() && Shown(js, Responses, f, g, reply) && Embedded(js, f).Some?
    requires js.ReadsBack(Embedded(js, f).value["model" := js.quote(reply)])
    ensures Embedded(js, js.Compacted(g)).Some?
    ensures Renamed(js.Compacted(Embedded(js, f).value), Embedded(js, js.Compacted(g)).value, js.quote(reply))
    ensures UsageIn(js, Responses, js.Compacted(g)) == UsageIn(js, Responses, f)
  {
    hide Json.Tidy, UsageIn, Shown, Renamed;
    var inner := Embedded(js, f).value;
    RetitledIsShown(js, Responses, f, g, reply);
    RenamedInside(js, f, reply);
    UsageInside(js, f, reply);
  }

  lemma RenamedInside(js: Json, f: Fields, reply: string)
    requires js.Tidy() && Embedded(js, f).Some? && js.ReadsBack(Embedded(js, f).value["model" := js.quote(reply)])
    ensures var h := js.Compacted(Retitled(js, Responses, f, reply));
      && Embedded(js, h).Some? && Embedded(js, h).value == js.Compacted(Embedded(js, f).value["model" := js.quote(reply)])
      && Renamed(js.Compacted(Embedded(js, f).value), Embedded(js, h).value, js.quote(reply))
  {
    hide Json.Tidy;
    TidyOutput(js, Embedded(js, f).value["model" := js.quote(reply)], reply);
  }

  lemma UsageInside(js: Json, f: Fields, reply: string)
    requires js.Tidy() && Embedded(js, f).Some? && js.ReadsBack(Embedded(js, f).value["model" := js.quote(reply)])
    ensures UsageIn(js, Responses, js.Compacted(Retitled(js, Responses, f, reply))) == UsageIn(js, Responses, f)
  {
    hide Json.Tidy;
    var inner := Embedded(js, f).value;
    TidyOutput(js, inner["model" := js.quote(reply)], reply);
    if "usage" in f {
      TidyValue(js, f["usage"]);
    }
    if "usage" in inner {
      TidyValue(js, inner["usage"]);
    }
  }

  /** Whoever reads a rewritten document finds the name that was asked for at each place
      the dialect has for it, and every other field as the server sent it, compacted. */
  lemma ClientSeesAskedName(js: Json, e: Endpoint, f: Fields, g: Fields, reply: string)
    requires js.Tidy() && Shown(js, e, f, g, reply) && js.ReadsBack(g)
    requires e == Responses && Embedded(js, f).Some? ==> js.ReadsBack(Embedded(js, f).value["model" := js.quote(reply)])
    ensures js.decode(js.encode(g)).Some? && js.decode(js.encode(g)).value.Keys == f.Keys
    ensures var h := js.decode(js.encode(g)).value;
      && ("model" in f ==> h["model"] == js.quote(reply))
      && (e == Responses && Embedded(js, f).Some? ==>
            Embedded(js, h).Some? && Renamed(js.Compacted(Embedded(js, f).value), Embedded(js, h).value, js.quote(reply)))
      && (forall k :: k in f && k != "model" && (k == "response" ==> e == Chat || Embedded(js, f).None?) ==> h[k] == js.compact(f[k]))
      && UsageIn(js, e, h) == UsageIn(js, e, f)
  {
    hide Json.Tidy, UsageIn;
    TidyOutput(js, f, reply);
    if e == Responses && Embedded(js, f).Some? {
      EmbeddedComesBack(js, f, g, reply);
    } else {
      UsageCompacted(js, e, g);
      UsageStays(js, e, f, g, reply);
    }
  }

  lemma UsageStays(js: Json, e: Endpoint, f: Fields, g: Fields, reply: string)
    requires Renamed(f, g, js.quote(reply))
    ensures UsageIn(js, e, g) == UsageIn(js, e, f)
  {
  }

  // ----- buffered responses ------------------------------------------------------------------------

  datatype Body = Read(bytes: string) | Failed(clientGone: bool, timeout: bool)

  /** The way out of dispatch that a buffered body is. */
  function BranchOf(body: Body, code: int): Branch {
    match body
    case Failed(gone, timeout) => BodyFailed(gone, timeout)
    case Read(_) => Buffered(code)
  }

  /** Where a buffered body has its usage: at the top level, whatever it is worth there,
      else in the response object. */
  function BufferedUsage(js: Json, f: Fields): Option<Usage> {
    if "usage" in f then js.usage(f["usage"])
    else if "response" in f && js.decode(f["response"]).Some? && "usage" in js.decode(f["response"]).value
    then js.usage(js.decode(f["response"]).value["usage"])
    else None
  }

  method UsageFromDoc(js: Json, doc: Fields) returns (usage: Option<Usage>)
    ensures usage == BufferedUsage(js, doc)
  {
    if "usage" in doc {
      return js.usage(doc["usage"]);
    }
    if "response" in doc {
      var inner := js.decode(doc["response"]);
      if inner.Some? {
        if "usage" in inner.value {
          return js.usage(inner.value["usage"]);
        }
      }
    }
    usage := None;
  }

  method CompletionChars(js: Json, e: Endpoint, doc: Fields) returns (chars: nat)
    ensures chars == BodyText(js, e, doc)
  {
    chars := 0;
    if e == Responses {
      if "output" in doc {
        chars := js.outputText(doc["output"]);
      }
    } else if "choices" in doc {
      chars := js.messageText(doc["choices"]);
    }
  }

  /** Usage is read after the renaming, which writes the response object anew: what was
      there is still found, at the same place, if that object reads back. */
  lemma BufferedUsageStays(js: Json, e: Endpoint, f: Fields, reply: string)
    requires js.Tidy()
    requires e == Responses && Embedded(js, f).Some? ==> js.ReadsBack(Embedded(js, f).value["model" := js.quote(reply)])
    ensures BufferedUsage(js, Retitled(js, e, f, reply)) == BufferedUsage(js, f)
  {
    hide Json.Tidy;
    if e == Responses && Embedded(js, f).Some? {
      var inner := Embedded(js, f).value;
      if "usage" in inner {
        TidyValue(js, inner["usage"]);
      }
    }
  }

  lemma BodyTextStays(js: Json, e: Endpoint, f: Fields, reply: string)
    ensures BodyText(js, e, Retitled(js, e, f, reply)) == BodyText(js, e, f)
  {
    hide Embedded;
  }

  /** The one row of a buffered response, and the body the client gets. A body that could
      not be read is a cancellation if the client has gone, else an error document that
      goes with the row; a body that names no model is forwarded byte for byte. */
  method RespondBuffered(js: Json, e: Endpoint, code: int, body: Body, reply: string, rawChars: nat, client: Client)
      returns (row: Row)
    requires client.head == None && client.frames == [] && client.errors == []
    modifies client
    ensures body.Failed? ==> client.frames == [] && row.usage == Usage(0, 0, 0, 0) && !row.estimated
    ensures body.Failed? && body.clientGone ==> client.head == None && client.errors == [] && row.status == Cancelled && row.http == 499
    ensures body.Failed? && !body.clientGone ==>
      && client.errors == [row.http] && client.head == Some(row.http)
      && (if body.timeout then row.status == UpstreamTimeout && row.http == 504 else row.status == UpstreamError && row.http == 502)
    ensures body.Read? ==> client.head == Some(code) && client.errors == [] && row.status == Ok && row.http == code
    ensures body.Read? && js.decode(body.bytes).None? ==>
      client.frames == [body.bytes] && row.estimated && row.usage == Usage(EstimateTokens(rawChars), 0, 0, 0)
    ensures body.Read? && js.decode(body.bytes).Some? ==>
      var f := js.decode(body.bytes).value;
      && (!Names(js, e, f) ==> client.frames == [body.bytes])
      && (Names(js, e, f) ==> exists g :: Shown(js, e, f, g, reply) && client.frames == [js.encode(g)])
      && (var usage := BufferedUsage(js, Retitled(js, e, f, reply));
          && row.estimated == usage.None?
          && row.usage == if usage.None? then Usage(EstimateTokens(rawChars), EstimateTokens(BodyText(js, e, f)), 0, 0)
                          else usage.value)
    ensures row.ttft == None
    ensures OutcomeOf(BranchOf(body, code)) == Outcome.Finish(row.status, row.http) && (code < 400 ==> Possible(BranchOf(body, code)))
  {
    hide Retitled, Shown, Names, BufferedUsage, BodyText, EstimateTokens;
    if body.Failed? {
      if body.clientGone {
        return Row(Cancelled, 499, Usage(0, 0, 0, 0), false, None);
      }
      if body.timeout {
        client.WriteError(504);
        return Row(UpstreamTimeout, 504, Usage(0, 0, 0, 0), false, None);
      }
      client.WriteError(502);
      return Row(UpstreamError, 502, Usage(0, 0, 0, 0), false, None);
    }
    var bytes, text, usage := body.bytes, 0, None;
    var doc := js.decode(bytes);
    if doc.Some? {
      var g, changed := Rename(js, e, doc.value, reply);
      if changed {
        bytes := js.encode(g);
      }
      usage := UsageFromDoc(js, g);
      text := CompletionChars(js, e, g);
      BodyTextStays(js, e, doc.value, reply);
    }
    client.head := Some(code);
    client.Write(bytes, true);
    row := if usage.Some? then Row(Ok, code, usage.value, false, None)
           else Row(Ok, code, Usage(EstimateTokens(rawChars), EstimateTokens(text), 0, 0), true, None);
  }

  /** There is such a library for any documents: one that numbers them and writes values as
      they are. */
  lemma SomeJsonReadsBack(fs: seq<Fields>) returns (js: Json)
    ensures js.Tidy() && forall i :: 0 <= i < |fs| ==> js.ReadsBack(fs[i])
  {
    js := Json(b => if |b| < |fs| then Some(fs[|b|]) else None, f => seq(IndexOf(fs, f), _ => 'x'), s => s, s => s,
               _ => None, _ => 0, _ => 0, _ => 0, _ => 0, _ => true);
    forall f: Fields ensures js.Compacted(f) == f {
    }
    forall i | 0 <= i < |fs| ensures js.ReadsBack(fs[i]) {
      IndexFound(fs, i);
    }
  }

  function IndexOf(fs: seq<Fields>, f: Fields): nat {
    if fs == [] || fs[0] == f then 0 else 1 + IndexOf(fs[1..], f)
  }

  lemma {:induction false} IndexFound(fs: seq<Fields>, i: nat)
    requires i < |fs|
    ensures IndexOf(fs, fs[i]) < |fs| && fs[IndexOf(fs, fs[i])] == fs[i]
  {
    if fs[0] != fs[i] {
      IndexFound(fs[1..], i - 1);
    }
  }
}
