/**
 * The control server's request handler (`do_GET`, and `do_HEAD`, which runs
 * the same code). A request is one atomic step from an actuator state to a
 * response and a new state. `urlparse` and `parse_qs` are library calls: the
 * request carries their results rather than re-deriving them, and the page
 * contents and the clock reading are inputs too.
 */
module Control {
  import opened Basics
  import Utf8
  import opened Actuator

  datatype Command = GET | HEAD

  /** The result of `parse_qs(url.query)`: each key with its list of values, or the error it raised. */
  datatype Query = Parsed(fields: map<string, seq<string>>) | Unparsable(reason: string)

  /** `self.command`, `self.path` as sent, `urlparse(self.path).path`, and the parsed query. */
  datatype Request = Request(command: Command, rawPath: string, urlPath: string, query: Query)

  /** The player script as read from disk and the control page after template substitution. */
  datatype Site = Site(script: string, indexPage: string)

  datatype Header =
    | Location(target: string)
    | ContentType(mime: string)
    | ContentLength(length: nat)
    | LastModified(at: real)
    | ConnectionClose

  /** What follows the headers: nothing, a page, or the library's HTML error page. */
  datatype Body = NoBody | Content(bytes: seq<byte>) | ErrorPage(code: nat, message: string)

  datatype Response = Response(status: nat, headers: seq<Header>, body: Body)

  /** A handled request: what was sent back and the actuator state afterwards. */
  datatype Exchange = Exchange(response: Response, next: State)

  const ScriptType: string := "application/javascript"
  const PageType: string := "text/html; charset=utf-8"
  /** `str(IndexError)` for `v[0]` on an empty list. */
  const IndexErrorText: string := "list index out of range"
  const NotFoundText: string := "File not found"

  /** The routes `do_GET` compares the raw path against. */
  const ExactPaths: set<string> := {"/", "/jsmpg.js", "/index.html"}
  /** The routes it compares the parsed path against. */
  const ParsedPaths: set<string> := {"/move", "/stop"}

  /**
   * The first value of every key that `parse_qs` listed, or the message of
   * the exception that stops the handler from building that map.
   */
  function FirstValues(q: Query): (r: Result<map<string, string>, string>)
    ensures q.Unparsable? ==> r == Failure(q.reason)
    ensures q.Parsed? && (exists k :: k in q.fields && |q.fields[k]| == 0) ==> r == Failure(IndexErrorText)
    ensures r.Success? <==> q.Parsed? && forall k :: k in q.fields ==> |q.fields[k]| > 0
    ensures r.Success? ==>
      && q.Parsed?
      && r.value.Keys == q.fields.Keys
      && forall k :: k in r.value ==> |q.fields[k]| > 0 && r.value[k] == q.fields[k][0]
  {
    match q
    case Unparsable(reason) => Failure(reason)
    case Parsed(fields) =>
      if exists k :: k in fields && |fields[k]| == 0 then Failure(IndexErrorText)
      else Success(map k | k in fields :: fields[k][0])
  }

  /** `send_error(code, message)`: the error page is written for GET only. */
  function Error(cmd: Command, code: nat, message: string): (r: Response)
    ensures r.status == code && r.headers == [ConnectionClose]
    ensures r.body != NoBody <==> cmd == GET
    ensures cmd == GET ==> r.body == ErrorPage(code, message)
  {
    Response(code, [ConnectionClose], if cmd == GET then ErrorPage(code, message) else NoBody)
  }

  /** A 200 with no headers of its own and no body, as `/move` and `/stop` send. */
  const Ok: Response := Response(200, [], NoBody)

  /** A static page: UTF-8 encoded, measured, stamped, and written for GET only. */
  function Serve(cmd: Command, mime: string, text: string, now: real): (r: Response)
    ensures r.status == 200
    ensures r.headers == [ContentType(mime), ContentLength(|Utf8.Encode(text)|), LastModified(now)]
    ensures cmd == GET ==> r.body == Content(Utf8.Encode(text))
    ensures cmd == HEAD ==> r.body == NoBody
    ensures r.body.Content? ==> ContentLength(|r.body.bytes|) in r.headers
  {
    var bytes := Utf8.Encode(text);
    Response(200, [ContentType(mime), ContentLength(|bytes|), LastModified(now)],
             if cmd == GET then Content(bytes) else NoBody)
  }

  /** `StreamingHttpHandler.do_GET` as one atomic step; `now` is the `time()` it reads. */
  function Handle(req: Request, site: Site, now: real, s: State): (r: Exchange)
    ensures r.response.status in {200, 301, 400, 404}
    ensures r.response.status == 301 <==> req.rawPath == "/"
    ensures r.response.status == 301 ==> r.response.headers == [Location("/index.html")] && r.response.body == NoBody
    ensures r.response.status == 404 ==> r == Exchange(Error(req.command, 404, NotFoundText), s)
    ensures r.response.status == 400 <==>
      req.rawPath != "/" && req.urlPath == "/move" && FirstValues(req.query).Failure?
    ensures r.response.status == 404 <==> req.rawPath !in ExactPaths && req.urlPath !in ParsedPaths
    ensures r.next != s ==> req.rawPath != "/" && req.urlPath in ParsedPaths
    ensures r.next.lastMove == s.lastMove || r.next.lastMove == now
    ensures r.response.body != NoBody ==> req.command == GET
    ensures r.response.body.Content? ==> ContentLength(|r.response.body.bytes|) in r.response.headers
  {
    if req.rawPath == "/" then
      Exchange(Response(301, [Location("/index.html")], NoBody), s)
    else if req.urlPath == "/move" then
      match FirstValues(req.query)
      case Failure(message) => Exchange(Error(req.command, 400, message), s)
      case Success(data) => Exchange(Ok, Move(s, data, now))
    else if req.urlPath == "/stop" then
      Exchange(Ok, Stop(s))
    else if req.rawPath == "/jsmpg.js" then
      Exchange(Serve(req.command, ScriptType, site.script, now), s)
    else if req.rawPath == "/index.html" then
      Exchange(Serve(req.command, PageType, site.indexPage, now), s)
    else
      Exchange(Error(req.command, 404, NotFoundText), s)
  }

  /** `do_HEAD`: the same status, headers and state change as GET, and never a body. */
  lemma HeadMatchesGet(req: Request, site: Site, now: real, s: State)
    ensures
      var head := Handle(req.(command := HEAD), site, now, s);
      var get := Handle(req.(command := GET), site, now, s);
      && head.next == get.next
      && head.response == get.response.(body := NoBody)
  {
  }

  /** A `/move` that parses answers 200 and applies the truth table; one that does not answers 400 and changes nothing. */
  lemma MoveRequest(req: Request, site: Site, now: real, s: State)
    requires req.rawPath != "/" && req.urlPath == "/move"
    ensures FirstValues(req.query).Failure? ==>
      Handle(req, site, now, s) == Exchange(Error(req.command, 400, FirstValues(req.query).error), s)
    ensures FirstValues(req.query).Success? ==>
      Handle(req, site, now, s) == Exchange(Ok, Move(s, FirstValues(req.query).value, now))
  {
  }

  /** `/stop` always answers 200, stops both channels, keeps the timestamp, and repeating it changes nothing. */
  lemma StopRequest(req: Request, site: Site, now: real, later: real, s: State)
    requires req.rawPath != "/" && req.urlPath == "/stop"
    ensures Handle(req, site, now, s).response == Ok
    ensures Handle(req, site, now, s).next == State(Stopped, Stopped, s.lastMove)
    ensures Handle(req, site, later, Handle(req, site, now, s).next) == Handle(req, site, now, s)
  {
  }

  /** The two static routes serve the UTF-8 bytes of their page and announce exactly that many bytes. */
  lemma StaticPages(req: Request, site: Site, now: real, s: State)
    requires req.rawPath in {"/jsmpg.js", "/index.html"} && req.urlPath !in ParsedPaths
    ensures
      var text := if req.rawPath == "/jsmpg.js" then site.script else site.indexPage;
      var r := Handle(req, site, now, s);
      && r.next == s
      && r.response.status == 200
      && ContentLength(|Utf8.Encode(text)|) in r.response.headers
      && (req.command == GET ==> r.response.body == Content(Utf8.Encode(text)))
  {
  }

  // ---------------------------------------------------------------------
  // `parse_qs` grouping (default `keep_blank_values=False`), modelled only
  // far enough to relate the query string's pairs to the first values above.

  /** The non-blank values given for `key`, in the order they appear. */
  function Values(pairs: seq<(string, string)>, key: string): (vs: seq<string>)
    ensures forall v :: v in vs ==> v != "" && (key, v) in pairs
  {
    if |pairs| == 0 then []
    else (if pairs[0].0 == key && pairs[0].1 != "" then [pairs[0].1] else []) + Values(pairs[1..], key)
  }

  /** `parse_qs`: every key that has a non-blank value, with the list of those values. */
  function Group(pairs: seq<(string, string)>): (g: map<string, seq<string>>)
    ensures forall k :: k in g <==> exists i :: 0 <= i < |pairs| && pairs[i].0 == k && pairs[i].1 != ""
    ensures forall k :: k in g ==> g[k] == Values(pairs, k)
  {
    map k | k in (set i | 0 <= i < |pairs| && pairs[i].1 != "" :: pairs[i].0) :: Values(pairs, k)
  }

  /** The first value listed for a key is the value of its first non-blank occurrence. */
  lemma {:induction false} FirstOccurrence(pairs: seq<(string, string)>, key: string, i: nat)
    requires i < |pairs| && pairs[i].0 == key && pairs[i].1 != ""
    requires forall j :: 0 <= j < i ==> !(pairs[j].0 == key && pairs[j].1 != "")
    ensures |Values(pairs, key)| > 0 && Values(pairs, key)[0] == pairs[i].1
  {
    if i > 0 {
      FirstOccurrence(pairs[1..], key, i - 1);
    }
  }

  /** A key given with a non-blank value somewhere has at least one value listed. */
  lemma {:induction false} HasValue(pairs: seq<(string, string)>, key: string, i: nat)
    requires i < |pairs| && pairs[i].0 == key && pairs[i].1 != ""
    ensures |Values(pairs, key)| > 0
  {
    if i > 0 && !(pairs[0].0 == key && pairs[0].1 != "") {
      HasValue(pairs[1..], key, i - 1);
    }
  }

  /** `parse_qs` never lists a key without a value, so the `IndexError` branch needs a malformed map. */
  lemma GroupHasNoEmptyList(pairs: seq<(string, string)>)
    ensures FirstValues(Parsed(Group(pairs))).Success?
  {
    var g := Group(pairs);
    forall k | k in g
      ensures |g[k]| > 0
    {
      var i :| 0 <= i < |pairs| && pairs[i].1 != "" && pairs[i].0 == k;
      HasValue(pairs, k, i);
    }
  }

  /**
   * A `/move` whose query repeats `direction` is steered by the first
   * non-blank occurrence, and stamps the time.
   */
  lemma RepeatedDirectionUsesFirst(req: Request, pairs: seq<(string, string)>, i: nat,
                                   site: Site, now: real, s: State)
    requires req.rawPath != "/" && req.urlPath == "/move" && req.query == Parsed(Group(pairs))
    requires i < |pairs| && pairs[i].0 == "direction" && pairs[i].1 != ""
    requires forall j :: 0 <= j < i ==> !(pairs[j].0 == "direction" && pairs[j].1 != "")
    ensures Handle(req, site, now, s).response == Ok
    ensures Handle(req, site, now, s).next.lastMove == now
    ensures ParseDirection(pairs[i].1).Some? ==>
      var d := Drive(ParseDirection(pairs[i].1).value);
      Handle(req, site, now, s).next == State(d.0, d.1, now)
    ensures ParseDirection(pairs[i].1).None? ==>
      Handle(req, site, now, s).next == s.(lastMove := now)
  {
    GroupHasNoEmptyList(pairs);
    FirstOccurrence(pairs, "direction", i);
    var data := FirstValues(req.query).value;
    assert "direction" in data && data["direction"] == pairs[i].1;
  }

  /** With no non-blank `direction` in the query (`/move?` or `/move?direction=`), `/move` is a 200 no-op. */
  lemma MissingDirectionIsNoOp(req: Request, pairs: seq<(string, string)>, site: Site, now: real, s: State)
    requires req.rawPath != "/" && req.urlPath == "/move" && req.query == Parsed(Group(pairs))
    requires forall j :: 0 <= j < |pairs| ==> !(pairs[j].0 == "direction" && pairs[j].1 != "")
    ensures Handle(req, site, now, s) == Exchange(Ok, s)
  {
    GroupHasNoEmptyList(pairs);
  }
}
