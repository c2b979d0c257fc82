/**
 * The typed Canvas client (staffeli/typed_canvas.py, and its copy in
 * subsets/linalg17/staffeli.py): request construction with keyword
 * arguments, the parser for segments of the `Link` response header, and
 * the loop that follows Canvas's pagination links and concatenates the
 * page bodies.
 *
 * The server is a map from request to response; a response is its parsed
 * JSON body and its `Link` header, if any.
 */
module TypedCanvas {
  import opened Common

  /** What `urllib.request.Request` is given: the pair list handed to `urlencode`, and the token header. */
  datatype Request = Request(verb: string, url: string, query: seq<Pair>, authorization: string)

  datatype Response = Response(body: Json, link: Option<string>)

  type Server = map<Request, Response>

  // ---------------------------------------------------------------- keyword arguments

  /**
   * `args[key]` for keyword arguments kept in their insertion order. A
   * Python keyword dictionary holds each key once; a pair sequence that
   * repeats a key stands for no such dictionary, and only its first pair
   * with that key is read or updated.
   */
  function DictGet(args: seq<Pair>, key: string): Option<string>
  {
    if |args| == 0 then None
    else if args[0].0 == key then Some(args[0].1)
    else DictGet(args[1..], key)
  }

  /** `args[key] = value` on a dict: an existing key keeps its place, a new one goes last. */
  function DictSet(args: seq<Pair>, key: string, value: string): (r: seq<Pair>)
    ensures DictGet(r, key) == Some(value)
    ensures forall k :: k != key ==> DictGet(r, k) == DictGet(args, k)
    ensures DictGet(args, key).Some? ==> |r| == |args| && forall i :: 0 <= i < |r| ==> r[i].0 == args[i].0
    ensures DictGet(args, key).None? ==> r == args + [(key, value)]
  {
    if |args| == 0 then [(key, value)]
    else if args[0].0 == key then [(key, value)] + args[1..]
    else [args[0]] + DictSet(args[1..], key, value)
  }

  /** `_req`: the keyword arguments become the query pairs, as given and in order. */
  function Req(token: string, verb: string, url: string, args: seq<Pair>): (r: Request)
    ensures r.query == args && r.url == url && r.verb == verb
    ensures r.authorization == "Bearer " + token
  {
    Request(verb, url, args, "Bearer " + token)
  }

  /** `_list_req`: `per_page` is forced to 100, whatever the caller passed; every other argument is kept. */
  function ListReq(token: string, verb: string, url: string, args: seq<Pair>): (r: Request)
    ensures DictGet(r.query, "per_page") == Some("100")
    ensures forall k :: k != "per_page" ==> DictGet(r.query, k) == DictGet(args, k)
    ensures r.url == url && r.verb == verb
  {
    Req(token, verb, url, DictSet(args, "per_page", "100"))
  }

  // ---------------------------------------------------------------- the Link header

  const RelSep := "; rel=\""

  /** A segment `<url>; rel="name"` of the `Link` header. */
  function Segment(url: string, rel: string): string
  {
    "<" + url + ">" + RelSep + rel + "\""
  }

  /** `_parse_pagination_link`: `(rel, url)`, or the ValueError of an unpacking that does not get two parts. */
  function ParseLink(s: string): Result<(string, string)>
  {
    var parts := Split(s, RelSep);
    if |parts| != 2 then Err(Failure("ValueError: expected 2 parts in a Link segment"))
    else Ok((DropLast(parts[1]), DropEnds(parts[0])))
  }

  /** The parser inverts the segment format when the url has no `"` and the name has no `;`. */
  lemma ParseLinkRoundTrip(url: string, rel: string)
    requires '"' !in url && ';' !in rel
    ensures ParseLink(Segment(url, rel)) == Ok((rel, url))
  {
    var a, b := "<" + url + ">", rel + "\"";
    var s := a + RelSep + b;
    assert Segment(url, rel) == s;
    assert forall k :: 0 < k < |a| - 1 ==> a[k] == url[k - 1];
    forall j | 0 <= j < |a| ensures !OccursAt(RelSep, s, j) {
      if j + 6 < |a| {
        assert s[j + 6] == a[j + 6];
      } else {
        assert s[j + 6] == RelSep[j + 6 - |a|];
      }
      assert s[j..j + 7][6] == s[j + 6] != RelSep[6];
    }
    SplitAtFirst(a, RelSep, b);
    assert ';' !in b;
    NoCharNoOccurrence(RelSep, b, ';');
    SplitFree(b, RelSep);
    assert Split(s, RelSep) == [a, b];
  }

  /**
   * Keeping `; rel="` itself out of the name is not enough: the name
   * `; rel=` completes the separator with the closing quote.
   */
  lemma ParseLinkSeparatorOverlap()
    ensures ParseLink(Segment("u", "; rel=")).Err?
  {
    var a := "<u>";
    var s := Segment("u", "; rel=");
    assert s == a + RelSep + RelSep;
    forall j | 0 <= j < |a| ensures !OccursAt(RelSep, s, j) {
      assert s[j..j + 7][0] == s[j] == a[j] != ';';
    }
    SplitAtFirst(a, RelSep, RelSep);
    assert Split(s, RelSep) == [a] + Split(RelSep, RelSep);
    SplitOfRelSep();
  }

  /** The separator alone splits into two empty parts. */
  lemma SplitOfRelSep()
    ensures |Split(RelSep, RelSep)| == 2
  {
    assert RelSep == "" + RelSep + "";
    SplitAtFirst("", RelSep, "");
    assert Find(RelSep, "") == None;
  }

  /** `str(f.getheader('Link'))`: a missing header is the text `None`. */
  function HeaderText(link: Option<string>): string
  {
    match link
    case None => "None"
    case Some(s) => s
  }

  /** The list comprehension over the segments: the first failing segment fails the whole list. */
  function ParseLinks(segments: seq<string>): Result<seq<(string, string)>>
  {
    if |segments| == 0 then Ok([])
    else match ParseLink(segments[0])
      case Err(e) => Err(e)
      case Ok(p) =>
        match ParseLinks(segments[1..])
        case Err(e) => Err(e)
        case Ok(ps) => Ok([p] + ps)
  }

  /** `{rel: link for rel, link in links}`. */
  function LinkMap(links: seq<(string, string)>): map<string, string>
  {
    if |links| == 0 then map[]
    else LinkMap(links[..|links| - 1])[links[|links| - 1].0 := links[|links| - 1].1]
  }

  /** Every rel of the list is a key, nothing else is, and a rel that occurs twice takes its later url. */
  lemma {:induction false} LinkMapSpec(links: seq<(string, string)>)
    ensures forall rel :: rel in LinkMap(links) <==> exists i :: 0 <= i < |links| && links[i].0 == rel
    ensures forall i :: 0 <= i < |links| && (forall j :: i < j < |links| ==> links[j].0 != links[i].0) ==>
      LinkMap(links)[links[i].0] == links[i].1
    decreases |links|
  {
    if |links| > 0 {
      var init, last := links[..|links| - 1], links[|links| - 1];
      LinkMapSpec(init);
      forall rel ensures rel in LinkMap(links) <==> exists i :: 0 <= i < |links| && links[i].0 == rel {
        if rel in LinkMap(init) {
          var i :| 0 <= i < |init| && init[i].0 == rel;
          assert links[i].0 == rel;
        }
        if exists i :: 0 <= i < |links| && links[i].0 == rel {
          var i :| 0 <= i < |links| && links[i].0 == rel;
          if i < |init| {
            assert init[i].0 == rel;
          }
        }
      }
      forall i | 0 <= i < |links| && (forall j :: i < j < |links| ==> links[j].0 != links[i].0)
        ensures LinkMap(links)[links[i].0] == links[i].1
      {
        if i < |init| {
          assert links[|links| - 1].0 != links[i].0;
          assert init[i] == links[i];
          assert forall j :: i < j < |init| ==> init[j] == links[j];
        }
      }
    }
  }

  /** The pagination links of a response: `Link` split on `,`, each segment parsed. */
  function ParseHeader(link: Option<string>): Result<map<string, string>>
  {
    match ParseLinks(Split(HeaderText(link), ","))
    case Err(e) => Err(e)
    case Ok(links) => Ok(LinkMap(links))
  }

  /** A response without a `Link` header fails the parse: `None` is not a segment. */
  lemma MissingHeaderFails()
    ensures ParseHeader(None).Err?
  {
    NoCharNoOccurrence(",", "None", ',');
    SplitFree("None", ",");
    NoCharNoOccurrence(RelSep, "None", ';');
    SplitFree("None", RelSep);
  }

  /** The segments of a header, `,`-separated, for a list of `(url, rel)` pairs. */
  function Segments(links: seq<(string, string)>): (r: seq<string>)
    ensures |r| == |links|
    ensures forall i :: 0 <= i < |links| ==> r[i] == Segment(links[i].0, links[i].1)
  {
    if |links| == 0 then [] else [Segment(links[0].0, links[0].1)] + Segments(links[1..])
  }

  /** The `(rel, url)` pairs of a list of `(url, rel)` pairs. */
  function Swap(links: seq<(string, string)>): (r: seq<(string, string)>)
    ensures |r| == |links|
    ensures forall i :: 0 <= i < |links| ==> r[i] == (links[i].1, links[i].0)
  {
    if |links| == 0 then [] else [(links[0].1, links[0].0)] + Swap(links[1..])
  }

  predicate WellFormedLink(link: (string, string))
  {
    '"' !in link.0 && ',' !in link.0 && ';' !in link.1 && ',' !in link.1
  }

  /** Each well-formed segment parses back to its `(rel, url)` pair. */
  lemma {:induction false} ParseSegments(links: seq<(string, string)>)
    requires forall i :: 0 <= i < |links| ==> WellFormedLink(links[i])
    ensures ParseLinks(Segments(links)) == Ok(Swap(links))
    decreases |links|
  {
    if |links| > 0 {
      ParseLinkRoundTrip(links[0].0, links[0].1);
      ParseSegments(links[1..]);
      assert Segments(links)[1..] == Segments(links[1..]);
      assert Swap(links) == [(links[0].1, links[0].0)] + Swap(links[1..]);
    }
  }

  lemma SegmentNoComma(url: string, rel: string)
    requires ',' !in url && ',' !in rel
    ensures ',' !in Segment(url, rel)
  {
    var s := Segment(url, rel);
    forall i | 0 <= i < |s| ensures s[i] != ',' {
      if 0 < i <= |url| {
        assert s[i] == url[i - 1];
      } else if |url| + 8 < i < |s| - 1 {
        assert s[i] == rel[i - |url| - 9];
      }
    }
  }

  /** A header written as `,`-separated segments parses to the later-wins map of its `(rel, url)` pairs. */
  lemma HeaderRoundTrip(links: seq<(string, string)>)
    requires |links| >= 1
    requires forall i :: 0 <= i < |links| ==> WellFormedLink(links[i])
    ensures ParseHeader(Some(Join(Segments(links), ","))) == Ok(LinkMap(Swap(links)))
  {
    var segs := Segments(links);
    forall k | 0 <= k < |segs| ensures ',' !in segs[k] {
      SegmentNoComma(links[k].0, links[k].1);
    }
    SplitJoinChar(segs, ',');
    assert Split(HeaderText(Some(Join(segs, ","))), ",") == segs;
    ParseSegments(links);
  }

  // ---------------------------------------------------------------- the page loop

  /** What one page contributes: a list body its elements, any other body itself. */
  function Entries(body: Json): seq<Json>
  {
    if body.JList? then body.items else [body]
  }

  datatype Step = Stop | Follow(url: string)

  /** The decision after a page: stop, follow `next`, or fail on a bad header or a missing key. */
  function NextStep(allPages: bool, link: Option<string>): Result<Step>
  {
    if !allPages then Ok(Stop)
    else match ParseHeader(link)
      case Err(e) => Err(e)
      case Ok(m) =>
        if "current" !in m then Err(Failure("KeyError: current"))
        else if "last" !in m then Err(Failure("KeyError: last"))
        else if m["current"] == m["last"] then Ok(Stop)
        else if "next" !in m then Err(Failure("KeyError: next"))
        else Ok(Follow(m["next"]))
  }

  /** With `all_pages` the loop stops exactly on `current == last` and otherwise follows `next`. */
  lemma NextStepSpec(link: Option<string>)
    ensures NextStep(false, link) == Ok(Stop)
    ensures NextStep(true, link) == Ok(Stop) <==>
      ParseHeader(link).Ok? && "current" in ParseHeader(link).value && "last" in ParseHeader(link).value &&
      ParseHeader(link).value["current"] == ParseHeader(link).value["last"]
    ensures forall u :: NextStep(true, link) == Ok(Follow(u)) <==>
      ParseHeader(link).Ok? && "current" in ParseHeader(link).value && "last" in ParseHeader(link).value &&
      ParseHeader(link).value["current"] != ParseHeader(link).value["last"] &&
      "next" in ParseHeader(link).value && ParseHeader(link).value["next"] == u
    ensures ParseHeader(link).Ok? && ("current" !in ParseHeader(link).value || "last" !in ParseHeader(link).value) ==>
      NextStep(true, link).Err?
  {
  }

  /** Which requests were sent, and the entries or the failure. */
  datatype Outcome = Outcome(sent: seq<Request>, result: Result<seq<Json>>)

  /** An outcome after some requests already sent and entries already collected. */
  function After(sent: seq<Request>, acc: seq<Json>, o: Outcome): Outcome
  {
    Outcome(sent + o.sent, if o.result.Ok? then Ok(acc + o.result.value) else o.result)
  }

  /** How a page's `Link` header decides what the loop does next. */
  type Decide = (bool, Option<string>) -> Result<Step>

  /**
   * The page loop for a given decision rule, with at most `fuel` pages:
   * request, collect the page's entries, then stop or follow the next url
   * with the same arguments.
   */
  function Pages(decide: Decide, server: Server, token: string, verb: string, url: string,
                 args: seq<Pair>, allPages: bool, fuel: nat): Outcome
    decreases fuel
  {
    if fuel == 0 then Outcome([], Err(Failure("page limit reached")))
    else
      var req := ListReq(token, verb, url, args);
      if req !in server then Outcome([req], Err(Failure("request failed")))
      else
        var resp := server[req];
        match decide(allPages, resp.link)
        case Err(e) => Outcome([req], Err(e))
        case Ok(Stop) => Outcome([req], Ok(Entries(resp.body)))
        case Ok(Follow(next)) =>
          After([req], Entries(resp.body), Pages(decide, server, token, verb, next, args, allPages, fuel - 1))
  }

  /** `_list_api` with at most `fuel` pages. */
  function ListPages(server: Server, token: string, verb: string, url: string, args: seq<Pair>,
                     allPages: bool, fuel: nat): Outcome
  {
    Pages(NextStep, server, token, verb, url, args, allPages, fuel)
  }

  lemma AfterEmpty(o: Outcome)
    ensures After([], [], o) == o
  {
    assert [] + o.sent == o.sent;
    if o.result.Ok? {
      assert [] + o.result.value == o.result.value;
    }
  }

  lemma AfterAfter(sent: seq<Request>, acc: seq<Json>, req: Request, page: seq<Json>, o: Outcome)
    ensures After(sent, acc, After([req], page, o)) == After(sent + [req], acc + page, o)
  {
    assert sent + ([req] + o.sent) == (sent + [req]) + o.sent;
    if o.result.Ok? {
      assert acc + (page + o.result.value) == (acc + page) + o.result.value;
    }
  }

  /** The `while True` loop of `_list_api` for a given decision rule. */
  method Paginate(decide: Decide, server: Server, token: string, verb: string, url: string, allPages: bool,
                  args: seq<Pair>, fuel: nat)
    returns (sent: seq<Request>, entries: Result<seq<Json>>)
    ensures Outcome(sent, entries) == Pages(decide, server, token, verb, url, args, allPages, fuel)
  {
    var req := ListReq(token, verb, url, args);
    var acc: seq<Json> := [];
    sent := [];
    var budget := fuel;
    var current := url;
    AfterEmpty(Pages(decide, server, token, verb, url, args, allPages, fuel));
    while true
      invariant req == ListReq(token, verb, current, args)
      invariant Pages(decide, server, token, verb, url, args, allPages, fuel) ==
        After(sent, acc, Pages(decide, server, token, verb, current, args, allPages, budget))
      decreases budget
    {
      if budget == 0 {
        return sent, Err(Failure("page limit reached"));
      }
      ghost var sent0, acc0 := sent, acc;
      sent := sent + [req];
      if req !in server {
        return sent, Err(Failure("request failed"));
      }
      var data := server[req].body;
      if data.JList? {
        acc := acc + data.items;
      } else {
        acc := acc + [data];
      }
      var step := decide(allPages, server[req].link);
      if step.Err? {
        return sent, Err(step.error);
      }
      if step.value.Stop? {
        return sent, Ok(acc);
      }
      AfterAfter(sent0, acc0, req, Entries(data),
                 Pages(decide, server, token, verb, step.value.url, args, allPages, budget - 1));
      current := step.value.url;
      req := ListReq(token, verb, current, args);
      budget := budget - 1;
    }
  }

  /** `_list_api`: the page loop deciding by the `Link` header. */
  method ListApi(server: Server, token: string, verb: string, url: string, allPages: bool,
                 args: seq<Pair>, fuel: nat)
    returns (sent: seq<Request>, entries: Result<seq<Json>>)
    ensures Outcome(sent, entries) == ListPages(server, token, verb, url, args, allPages, fuel)
  {
    sent, entries := Paginate(NextStep, server, token, verb, url, allPages, args, fuel);
  }

  /** Without `all_pages` exactly one request is made, and its body is the result. */
  lemma SinglePage(server: Server, token: string, verb: string, url: string, args: seq<Pair>, fuel: nat)
    requires fuel > 0
    ensures var o := ListPages(server, token, verb, url, args, false, fuel);
      o.sent == [ListReq(token, verb, url, args)] &&
      (ListReq(token, verb, url, args) in server ==>
        o.result == Ok(Entries(server[ListReq(token, verb, url, args)].body)))
  {
    assert NextStep(false, None) == Ok(Stop);
  }

  /** A request carries `per_page=100` and otherwise exactly the arguments `args`. */
  ghost predicate CarriesPerPage(req: Request, args: seq<Pair>)
  {
    DictGet(req.query, "per_page") == Some("100") &&
    forall k :: k != "per_page" ==> DictGet(req.query, k) == DictGet(args, k)
  }

  lemma {:induction false} PagesCarryPerPage(decide: Decide, server: Server, token: string, verb: string,
                                             url: string, args: seq<Pair>, allPages: bool, fuel: nat)
    ensures forall i :: 0 <= i < |Pages(decide, server, token, verb, url, args, allPages, fuel).sent| ==>
      CarriesPerPage(Pages(decide, server, token, verb, url, args, allPages, fuel).sent[i], args)
    decreases fuel
  {
    if fuel > 0 {
      var req := ListReq(token, verb, url, args);
      assert CarriesPerPage(req, args);
      if req in server {
        match decide(allPages, server[req].link)
        case Err(_) =>
        case Ok(Stop) =>
        case Ok(Follow(next)) =>
          var rest := Pages(decide, server, token, verb, next, args, allPages, fuel - 1);
          PagesCarryPerPage(decide, server, token, verb, next, args, allPages, fuel - 1);
          var o := Pages(decide, server, token, verb, url, args, allPages, fuel);
          assert o.sent == [req] + rest.sent;
          forall i | 0 <= i < |o.sent| ensures CarriesPerPage(o.sent[i], args) {
            if i > 0 {
              assert o.sent[i] == rest.sent[i - 1];
              assert CarriesPerPage(rest.sent[i - 1], args);
            } else {
              assert o.sent[i] == req;
            }
          }
      }
    }
  }

  /** Every request of the loop carries `per_page=100` and otherwise the caller's arguments. */
  lemma RequestsCarryPerPage(server: Server, token: string, verb: string, url: string,
                             args: seq<Pair>, allPages: bool, fuel: nat)
    ensures var o := ListPages(server, token, verb, url, args, allPages, fuel);
      forall i :: 0 <= i < |o.sent| ==> CarriesPerPage(o.sent[i], args)
  {
    PagesCarryPerPage(NextStep, server, token, verb, url, args, allPages, fuel);
    assert ListPages(server, token, verb, url, args, allPages, fuel) ==
      Pages(NextStep, server, token, verb, url, args, allPages, fuel);
  }

  /** The entries of the pages answering `sent`, concatenated in page order. */
  function Collected(server: Server, sent: seq<Request>): seq<Json>
    requires forall i :: 0 <= i < |sent| ==> sent[i] in server
  {
    if |sent| == 0 then [] else Entries(server[sent[0]].body) + Collected(server, sent[1..])
  }

  lemma PagesChain(decide: Decide, server: Server, token: string, verb: string, url: string,
                   args: seq<Pair>, fuel: nat)
    requires Pages(decide, server, token, verb, url, args, true, fuel).result.Ok?
    ensures var o := Pages(decide, server, token, verb, url, args, true, fuel);
      1 <= |o.sent| <= fuel &&
      o.sent[0] == ListReq(token, verb, url, args) &&
      (forall i :: 0 <= i < |o.sent| ==> o.sent[i] in server) &&
      (forall i :: 0 <= i < |o.sent| - 1 ==> decide(true, server[o.sent[i]].link) == Ok(Follow(o.sent[i + 1].url))) &&
      decide(true, server[o.sent[|o.sent| - 1]].link) == Ok(Stop) &&
      o.result.value == Collected(server, o.sent)
  {
    PagesSent(decide, server, token, verb, url, args, fuel);
    PagesLinks(decide, server, token, verb, url, args, fuel);
    PagesLast(decide, server, token, verb, url, args, fuel);
    PagesCollected(decide, server, token, verb, url, args, fuel);
  }

  /** One successful round: the first request was answered, and its page either stopped or led to a successful rest. */
  lemma PagesStep(decide: Decide, server: Server, token: string, verb: string, url: string,
                  args: seq<Pair>, fuel: nat)
    requires Pages(decide, server, token, verb, url, args, true, fuel).result.Ok?
    ensures fuel > 0 && ListReq(token, verb, url, args) in server
    ensures var req := ListReq(token, verb, url, args);
      var o := Pages(decide, server, token, verb, url, args, true, fuel);
      decide(true, server[req].link).Ok? &&
      match decide(true, server[req].link).value
      case Stop => o.sent == [req] && o.result.value == Entries(server[req].body)
      case Follow(next) =>
        var rest := Pages(decide, server, token, verb, next, args, true, fuel - 1);
        rest.result.Ok? && o.sent == [req] + rest.sent && o.result.value == Entries(server[req].body) + rest.result.value
  {
  }

  lemma {:induction false} PagesSent(decide: Decide, server: Server, token: string, verb: string, url: string,
                                     args: seq<Pair>, fuel: nat)
    requires Pages(decide, server, token, verb, url, args, true, fuel).result.Ok?
    ensures var o := Pages(decide, server, token, verb, url, args, true, fuel);
      1 <= |o.sent| <= fuel &&
      o.sent[0] == ListReq(token, verb, url, args) &&
      forall i :: 0 <= i < |o.sent| ==> o.sent[i] in server
    decreases fuel
  {
    PagesStep(decide, server, token, verb, url, args, fuel);
    var req := ListReq(token, verb, url, args);
    var o := Pages(decide, server, token, verb, url, args, true, fuel);
    match decide(true, server[req].link).value
    case Stop =>
    case Follow(next) =>
      var rest := Pages(decide, server, token, verb, next, args, true, fuel - 1);
      PagesSent(decide, server, token, verb, next, args, fuel - 1);
      forall i | 0 <= i < |o.sent| ensures o.sent[i] in server {
        if i > 0 {
          assert o.sent[i] == rest.sent[i - 1];
        }
      }
  }

  lemma {:induction false} PagesLinks(decide: Decide, server: Server, token: string, verb: string, url: string,
                                      args: seq<Pair>, fuel: nat)
    requires Pages(decide, server, token, verb, url, args, true, fuel).result.Ok?
    ensures var o := Pages(decide, server, token, verb, url, args, true, fuel);
      (forall i :: 0 <= i < |o.sent| ==> o.sent[i] in server) &&
      forall i :: 0 <= i < |o.sent| - 1 ==> decide(true, server[o.sent[i]].link) == Ok(Follow(o.sent[i + 1].url))
    decreases fuel
  {
    PagesStep(decide, server, token, verb, url, args, fuel);
    PagesSent(decide, server, token, verb, url, args, fuel);
    var req := ListReq(token, verb, url, args);
    var o := Pages(decide, server, token, verb, url, args, true, fuel);
    match decide(true, server[req].link).value
    case Stop =>
    case Follow(next) =>
      var rest := Pages(decide, server, token, verb, next, args, true, fuel - 1);
      PagesSent(decide, server, token, verb, next, args, fuel - 1);
      PagesLinks(decide, server, token, verb, next, args, fuel - 1);
      assert rest.sent[0].url == next;
      forall i | 0 <= i < |o.sent| - 1
        ensures decide(true, server[o.sent[i]].link) == Ok(Follow(o.sent[i + 1].url))
      {
        if i > 0 {
          assert o.sent[i] == rest.sent[i - 1] && o.sent[i + 1] == rest.sent[i];
        } else {
          assert o.sent[0] == req && o.sent[1] == rest.sent[0];
        }
      }
  }

  lemma {:induction false} PagesLast(decide: Decide, server: Server, token: string, verb: string, url: string,
                                     args: seq<Pair>, fuel: nat)
    requires Pages(decide, server, token, verb, url, args, true, fuel).result.Ok?
    ensures var o := Pages(decide, server, token, verb, url, args, true, fuel);
      1 <= |o.sent| && o.sent[|o.sent| - 1] in server &&
      decide(true, server[o.sent[|o.sent| - 1]].link) == Ok(Stop)
    decreases fuel
  {
    PagesStep(decide, server, token, verb, url, args, fuel);
    var req := ListReq(token, verb, url, args);
    var o := Pages(decide, server, token, verb, url, args, true, fuel);
    match decide(true, server[req].link).value
    case Stop =>
    case Follow(next) =>
      var rest := Pages(decide, server, token, verb, next, args, true, fuel - 1);
      PagesLast(decide, server, token, verb, next, args, fuel - 1);
      assert o.sent[|o.sent| - 1] == rest.sent[|rest.sent| - 1];
  }

  lemma {:induction false} PagesCollected(decide: Decide, server: Server, token: string, verb: string, url: string,
                                          args: seq<Pair>, fuel: nat)
    requires Pages(decide, server, token, verb, url, args, true, fuel).result.Ok?
    ensures var o := Pages(decide, server, token, verb, url, args, true, fuel);
      (forall i :: 0 <= i < |o.sent| ==> o.sent[i] in server) &&
      o.result.value == Collected(server, o.sent)
    decreases fuel
  {
    PagesStep(decide, server, token, verb, url, args, fuel);
    PagesSent(decide, server, token, verb, url, args, fuel);
    var req := ListReq(token, verb, url, args);
    var o := Pages(decide, server, token, verb, url, args, true, fuel);
    match decide(true, server[req].link).value
    case Stop =>
      assert Collected(server, o.sent) == Entries(server[req].body) + Collected(server, []);
    case Follow(next) =>
      var rest := Pages(decide, server, token, verb, next, args, true, fuel - 1);
      PagesCollected(decide, server, token, verb, next, args, fuel - 1);
      assert o.sent[0] == req && o.sent[1..] == rest.sent;
      assert Collected(server, o.sent) == Entries(server[req].body) + Collected(server, rest.sent);
  }

  /**
   * A successful paginated listing walked a chain of pages: it began at
   * `url`, each page's `next` is the following request's url, only the
   * final page has `current == last`, and the result concatenates the
   * pages' entries in order.
   */
  lemma ListPagesChain(server: Server, token: string, verb: string, url: string, args: seq<Pair>, fuel: nat)
    requires ListPages(server, token, verb, url, args, true, fuel).result.Ok?
    ensures var o := ListPages(server, token, verb, url, args, true, fuel);
      1 <= |o.sent| <= fuel &&
      o.sent[0] == ListReq(token, verb, url, args) &&
      (forall i :: 0 <= i < |o.sent| ==> o.sent[i] in server) &&
      (forall i :: 0 <= i < |o.sent| - 1 ==> NextStep(true, server[o.sent[i]].link) == Ok(Follow(o.sent[i + 1].url))) &&
      NextStep(true, server[o.sent[|o.sent| - 1]].link) == Ok(Stop) &&
      o.result.value == Collected(server, o.sent)
  {
    PagesChain(NextStep, server, token, verb, url, args, fuel);
  }

  /** The requests of a listing that visits the pages at `urls`, in that order. */
  function ChainRequests(token: string, verb: string, urls: seq<string>, args: seq<Pair>): (r: seq<Request>)
    ensures |r| == |urls|
  {
    seq(|urls|, i requires 0 <= i < |urls| => ListReq(token, verb, urls[i], args))
  }

  /**
   * The server answers a request for every page at `urls`, each page but the
   * last leads on to the next url, and the last one stops.
   */
  predicate ClosedChain(decide: Decide, server: Server, token: string, verb: string, urls: seq<string>, args: seq<Pair>)
  {
    |urls| >= 1 &&
    (forall i :: 0 <= i < |urls| ==> ListReq(token, verb, urls[i], args) in server) &&
    (forall i :: 0 <= i < |urls| - 1 ==> decide(true, server[ListReq(token, verb, urls[i], args)].link) == Ok(Follow(urls[i + 1]))) &&
    decide(true, server[ListReq(token, verb, urls[|urls| - 1], args)].link) == Ok(Stop)
  }

  /** The rest of a closed chain is a closed chain. */
  lemma ClosedChainTail(decide: Decide, server: Server, token: string, verb: string, urls: seq<string>, args: seq<Pair>)
    requires ClosedChain(decide, server, token, verb, urls, args) && |urls| >= 2
    ensures ClosedChain(decide, server, token, verb, urls[1..], args)
  {
    var tail := urls[1..];
    forall i | 0 <= i < |tail| ensures ListReq(token, verb, tail[i], args) in server {
      assert tail[i] == urls[i + 1];
    }
    forall i | 0 <= i < |tail| - 1
      ensures decide(true, server[ListReq(token, verb, tail[i], args)].link) == Ok(Follow(tail[i + 1]))
    {
      assert tail[i] == urls[i + 1] && tail[i + 1] == urls[i + 2];
    }
    assert tail[|tail| - 1] == urls[|urls| - 1];
  }

  /** A chain of requests splits into its first request and the chain of the rest. */
  lemma ChainRequestsCons(token: string, verb: string, urls: seq<string>, args: seq<Pair>)
    requires |urls| >= 1
    ensures ChainRequests(token, verb, urls, args) ==
      [ListReq(token, verb, urls[0], args)] + ChainRequests(token, verb, urls[1..], args)
  {
  }

  /**
   * Conversely, a listing over a closed chain of pages that the fuel can
   * cover succeeds: it sends exactly the chain's requests and collects their
   * pages' entries in order.
   */
  lemma {:induction false} PagesOfChain(decide: Decide, server: Server, token: string, verb: string,
                                        urls: seq<string>, args: seq<Pair>, fuel: nat)
    requires ClosedChain(decide, server, token, verb, urls, args) && |urls| <= fuel
    ensures var sent := ChainRequests(token, verb, urls, args);
      (forall i :: 0 <= i < |sent| ==> sent[i] in server) &&
      Pages(decide, server, token, verb, urls[0], args, true, fuel) == Outcome(sent, Ok(Collected(server, sent)))
    decreases |urls|
  {
    var req := ListReq(token, verb, urls[0], args);
    ChainRequestsCons(token, verb, urls, args);
    if |urls| == 1 {
      PagesStopped(decide, server, token, verb, urls[0], args, fuel);
    } else {
      ClosedChainTail(decide, server, token, verb, urls, args);
      PagesOfChain(decide, server, token, verb, urls[1..], args, fuel - 1);
      assert urls[1..][0] == urls[1];
      PagesFollowed(decide, server, token, verb, urls[0], urls[1], args, fuel,
                    ChainRequests(token, verb, urls[1..], args));
    }
  }

  /** A page that stops ends the listing with its own entries. */
  lemma PagesStopped(decide: Decide, server: Server, token: string, verb: string, url: string,
                     args: seq<Pair>, fuel: nat)
    requires fuel > 0 && ListReq(token, verb, url, args) in server
    requires decide(true, server[ListReq(token, verb, url, args)].link) == Ok(Stop)
    ensures var req := ListReq(token, verb, url, args);
      Pages(decide, server, token, verb, url, args, true, fuel) == Outcome([req], Ok(Collected(server, [req])))
  {
    var req := ListReq(token, verb, url, args);
    assert [req][1..] == [];
    assert Entries(server[req].body) + [] == Entries(server[req].body);
  }

  /** A page that leads on to `next`, followed by a successful listing from `next`, succeeds as one. */
  lemma PagesFollowed(decide: Decide, server: Server, token: string, verb: string, url: string, next: string,
                      args: seq<Pair>, fuel: nat, rest: seq<Request>)
    requires fuel > 0 && ListReq(token, verb, url, args) in server
    requires decide(true, server[ListReq(token, verb, url, args)].link) == Ok(Follow(next))
    requires forall i :: 0 <= i < |rest| ==> rest[i] in server
    requires Pages(decide, server, token, verb, next, args, true, fuel - 1) == Outcome(rest, Ok(Collected(server, rest)))
    ensures var sent := [ListReq(token, verb, url, args)] + rest;
      (forall i :: 0 <= i < |sent| ==> sent[i] in server) &&
      Pages(decide, server, token, verb, url, args, true, fuel) == Outcome(sent, Ok(Collected(server, sent)))
  {
    var sent := [ListReq(token, verb, url, args)] + rest;
    assert sent[1..] == rest;
  }

  /**
   * The converse of `ListPagesChain`: a paginated listing from `url` over a
   * closed chain of pages that its fuel covers succeeds, sending the chain's
   * requests and returning their entries in page order.
   */
  lemma ListPagesOfChain(server: Server, token: string, verb: string, url: string, args: seq<Pair>,
                         urls: seq<string>, fuel: nat)
    requires ClosedChain(NextStep, server, token, verb, urls, args) && urls[0] == url && |urls| <= fuel
    ensures var sent := ChainRequests(token, verb, urls, args);
      (forall i :: 0 <= i < |sent| ==> sent[i] in server) &&
      ListPages(server, token, verb, url, args, true, fuel) == Outcome(sent, Ok(Collected(server, sent)))
  {
    PagesOfChain(NextStep, server, token, verb, urls, args, fuel);
  }
}
