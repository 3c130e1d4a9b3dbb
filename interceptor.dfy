/**
 * The main-world interceptor: its own copy of the state patch, the `fetch`
 * wrapper that patches state GET responses, and the launch-key messages it
 * posts for GraphQL responses and launch URLs.
 */
module Interceptor {
  import opened Wrappers
  import opened JsStrings
  import opened Descriptors
  import opened Http
  import opened StatePatch

  // ---------------------------------------------------------------------------
  // The second copy of `patchStateWithAnswers`, over a `Map`
  // ---------------------------------------------------------------------------

  /** A JavaScript `Map` from `_id` to record: its keys in insertion order and the value of each. */
  datatype JsMap = JsMap(keys: seq<string>, vals: map<string, Record>)

  /** Keys are distinct, exactly the keys of `vals`, and every record sits under its own `_id`. */
  predicate Valid(m: JsMap) {
    (forall i, j :: 0 <= i < j < |m.keys| ==> m.keys[i] != m.keys[j])
    && (forall k :: k in m.vals ==> k in m.keys)
    && (forall i :: 0 <= i < |m.keys| ==> m.keys[i] in m.vals)
    && (forall k :: k in m.vals ==> m.vals[k].id == k)
  }

  /** `map.set(k, v)`: a held key keeps its place in the order, a new key goes last. */
  function SetKey(m: JsMap, k: string, v: Record): JsMap {
    if k in m.vals then JsMap(m.keys, m.vals[k := v]) else JsMap(m.keys + [k], m.vals[k := v])
  }

  /** `Array.from(map.values())`. */
  function Values(m: JsMap): seq<Record>
    requires Valid(m)
  {
    seq(|m.keys|, i requires 0 <= i < |m.keys| => m.vals[m.keys[i]])
  }

  /** Setting a record under its own id keeps the map valid. */
  lemma SetKeyValid(m: JsMap, r: Record)
    requires Valid(m)
    ensures Valid(SetKey(m, r.id, r))
  {
    var m' := SetKey(m, r.id, r);
    if r.id !in m.vals {
      assert forall i :: 0 <= i < |m.keys| ==> m.keys[i] != r.id;
      assert forall i :: 0 <= i < |m.keys| ==> m'.keys[i] == m.keys[i];
    }
  }

  /** Setting a held id overwrites its value in place. */
  lemma SetKeyHeld(m: JsMap, r: Record, t: nat)
    requires Valid(m) && t < |m.keys| && m.keys[t] == r.id
    ensures Valid(SetKey(m, r.id, r))
    ensures Values(SetKey(m, r.id, r)) == Values(m)[t := r]
  {
    SetKeyValid(m, r);
    var m' := SetKey(m, r.id, r);
    assert m'.keys == m.keys;
    forall i | 0 <= i < |m.keys| && i != t
      ensures m'.vals[m.keys[i]] == m.vals[m.keys[i]]
    {
      assert m.keys[i] != r.id;
    }
  }

  /** Setting a new id appends its value. */
  lemma SetKeyNew(m: JsMap, r: Record)
    requires Valid(m) && r.id !in m.vals
    ensures Valid(SetKey(m, r.id, r))
    ensures Values(SetKey(m, r.id, r)) == Values(m) + [r]
  {
    SetKeyValid(m, r);
    var m' := SetKey(m, r.id, r);
    forall i | 0 <= i < |m.keys|
      ensures m'.keys[i] == m.keys[i] && m'.vals[m.keys[i]] == m.vals[m.keys[i]]
    {
      assert m.keys[i] != r.id;
    }
  }

  /** Where the map's keys hold the id, the values list holds it first at the same place. */
  lemma ValuesIndex(m: JsMap, id: string, t: nat)
    requires Valid(m) && t < |m.keys| && m.keys[t] == id
    ensures IdIndex(Values(m), id) == Some(t)
  {
    var vs := Values(m);
    forall j | 0 <= j < t ensures vs[j].id != id {
      assert vs[j].id == m.keys[j];
    }
    IdIndexIs(vs, id, t);
  }

  /** Where the map does not hold the id, neither does the values list. */
  lemma ValuesMissing(m: JsMap, id: string)
    requires Valid(m) && id !in m.vals
    ensures IdIndex(Values(m), id) == None
  {
    var vs := Values(m);
    forall j | 0 <= j < |vs| ensures vs[j].id != id {
      assert vs[j].id == m.keys[j];
    }
  }

  /** Setting a record under its own id does to the values what `Put` does to the record list. */
  lemma SetKeyAgrees(m: JsMap, r: Record)
    requires Valid(m)
    ensures Valid(SetKey(m, r.id, r))
    ensures Values(SetKey(m, r.id, r)) == Put(Values(m), r)
  {
    if r.id in m.vals {
      var t :| 0 <= t < |m.keys| && m.keys[t] == r.id;
      ValuesIndex(m, r.id, t);
      SetKeyHeld(m, r, t);
    } else {
      ValuesMissing(m, r.id);
      SetKeyNew(m, r);
    }
  }

  /**
   * The two `forEach` loops of the interceptor's copy, filling
   * `componentsStateMap`; `Array.from(componentsStateMap.values())` is the
   * record list of the content script's copy, and `None` stands for a throw.
   */
  method MapRecords(held: seq<Record>, comps: seq<Component>, now: string) returns (out: Option<seq<Record>>)
    ensures out == Merged(held, comps, now)
  {
    var table := JsMap([], map[]);
    var i := 0;
    while i < |held|
      invariant 0 <= i <= |held|
      invariant Valid(table) && Values(table) == PutAll([], held[..i])
    {
      assert held[..i + 1][..i] == held[..i];
      SetKeyAgrees(table, held[i]);
      table := SetKey(table, held[i].id, held[i]);
      i := i + 1;
    }
    assert held[..|held|] == held;
    ghost var ans: seq<Record> := [];
    var j := 0;
    while j < |comps|
      invariant 0 <= j <= |comps|
      invariant Answers(comps[..j], now) == Some(ans)
      invariant Valid(table) && Values(table) == PutAll(PutAll([], held), ans)
    {
      assert comps[..j + 1][..j] == comps[..j];
      var ua := ComputeUserAnswer(comps[j]);
      if ua.None? {
        AnswersIff(comps, now);
        return None;
      }
      var rec := AnswerRecord(comps[j], ua.value, now);
      SetKeyAgrees(table, rec);
      table := SetKey(table, comps[j].id, rec);
      ans := ans + [rec];
      j := j + 1;
    }
    assert comps[..|comps|] == comps;
    return Some(Values(table));
  }

  /**
   * `patchStateWithAnswers` of the interceptor, on the shallow copy
   * `{...stateData}` it is handed: it computes what the content script's
   * copy computes.
   */
  method PatchCopy(s: State, comps: seq<Component>, now: string) returns (r: Option<State>)
    ensures r == Patched(s, comps, now)
  {
    if |comps| == 0 {
      return Some(s);
    }
    var held := if s.components.Some? then s.components.value else [];
    var merged := MapRecords(held, comps, now);
    if merged.None? {
      return None;
    }
    var course := s.course;
    if course.Some? {
      course := Some(CourseCompleted(course.value));
    }
    var articles, blocks, objects := s.articles, s.blocks, s.contentObjects;
    if articles.Some? {
      var ns := MarkNodes(articles.value, now);
      articles := Some(ns);
    }
    if blocks.Some? {
      var ns := MarkNodes(blocks.value, now);
      blocks := Some(ns);
    }
    if objects.Some? {
      var ns := MarkNodes(objects.value, now);
      objects := Some(ns);
    }
    return Some(State(merged, course, articles, blocks, objects, s.offlineStorage, s.rest));
  }

  // ---------------------------------------------------------------------------
  // The `fetch` wrapper
  // ---------------------------------------------------------------------------

  /** The first argument of `fetch`: a URL string, a `Request`, or a `URL` object. */
  datatype Target = Text(url: string) | RequestObject(url: string, verb: string) | UrlObject(href: string)

  /** The arguments of a `fetch` call; `optionsMethod` is "" when no options or no method were given. */
  datatype FetchArgs = FetchArgs(target: Target, optionsMethod: string)

  /** `options.method`, then the `Request`'s method, then "GET". */
  function MethodOf(a: FetchArgs): (m: string)
    ensures a.optionsMethod != "" ==> m == a.optionsMethod
    ensures a.optionsMethod == "" && a.target.RequestObject? ==> m == a.target.verb
    ensures a.optionsMethod == "" && !a.target.RequestObject? ==> m == "GET"
  {
    if a.optionsMethod != "" then a.optionsMethod
    else match a.target
      case RequestObject(_, verb) => verb
      case _ => "GET"
  }

  /** The URL text of the target, a `URL` object read through its `href`. */
  function UrlText(t: Target): string {
    match t
    case Text(url) => url
    case RequestObject(url, _) => url
    case UrlObject(href) => href
  }

  /** The test that picks out the state GET requests of the course player. */
  predicate IsStateGet(verb: string, url: string) {
    verb == "GET" && url != ""
    && Includes(url, "/adl/data/") && Includes(url, "/activities/state") && Includes(url, "stateId=")
  }

  /** `data.data.getNewAdlLaunchData` of a GraphQL answer: the launch key, and the service when present. */
  datatype LaunchData = LaunchData(key: string, service: Option<string>)

  /** A response body: not JSON, or a JSON document read as a state and as a GraphQL answer. */
  datatype Body = NotJson | Json(state: State, launch: Option<LaunchData>)

  /** A `Response`: its ok flag, status line, headers and body. */
  datatype Response = Response(ok: bool, status: int, statusText: string, headers: seq<Header>, body: Body)

  /** What a promise returned by `fetch` settles to. */
  datatype Reply = Rejected | Resolved(response: Response)

  /** A `NETACAD_LAUNCH_KEY` message posted to the window. */
  datatype Posted = Posted(key: string, service: Option<string>)

  /** What one call of the wrapper yields, with the messages it posts, in the order they are posted. */
  datatype Outcome = Outcome(reply: Reply, posted: seq<Posted>)

  /** The headers of the patched response: the original ones, with a JSON content type added when none is given. */
  function EnsureContentType(hs: seq<Header>): seq<Header> {
    if Has(hs, "content-type") then hs else hs + [Header("Content-Type", "application/json")]
  }

  /** The patched response always has a content type; an existing one is kept, and nothing is dropped. */
  lemma EnsureContentTypeSpec(hs: seq<Header>)
    ensures Has(EnsureContentType(hs), "content-type")
    ensures Has(hs, "content-type") ==> EnsureContentType(hs) == hs
    ensures !Has(hs, "content-type") ==> EnsureContentType(hs) == hs + [Header("Content-Type", "application/json")]
    ensures EnsureContentType(EnsureContentType(hs)) == EnsureContentType(hs)
  {
    if !Has(hs, "content-type") {
      var out := EnsureContentType(hs);
      assert Named(out[|hs|], "content-type") by {
        assert LowerChar('C') == 'c' && LowerChar('T') == 't';
        assert Lower("Content-Type") == "content-type";
      }
    }
  }

  /** The rebuilt response: status and status text kept, the patched state as its body. */
  function PatchedResponse(r: Response, patched: State): Response
    requires r.body.Json?
  {
    Response(r.ok, r.status, r.statusText, EnsureContentType(r.headers), Json(patched, r.body.launch))
  }

  /**
   * An intercepted state GET, given what the first `originalFetch` and the
   * fallback `originalFetch` in the `catch` settle to, and the components
   * in `window.NETACAD_COMPONENTS` (absent as `None`).
   */
  function StateGet(first: Reply, second: Reply, comps: Option<seq<Component>>, now: string): Reply {
    match first
    case Rejected => second
    case Resolved(r) =>
      if !r.ok || comps.None? || comps.value == [] || r.body.NotJson? then first
      else match Patched(r.body.state, comps.value, now)
        case None => second
        case Some(p) => Resolved(PatchedResponse(r, p))
  }

  /** A non-ok response, no components or a body that is not JSON give back the original response. */
  lemma StateGetPassesThrough(first: Reply, second: Reply, comps: Option<seq<Component>>, now: string)
    requires first.Resolved?
    requires !first.response.ok || comps.None? || comps == Some([]) || first.response.body.NotJson?
    ensures StateGet(first, second, comps, now) == first
  {
  }

  /**
   * A patched response keeps the original ok flag, status and status text,
   * carries a content type, and its body is the state with every component
   * answered and completed.
   */
  lemma StateGetPatches(r: Response, second: Reply, comps: seq<Component>, now: string)
    requires r.ok && comps != [] && r.body.Json?
    requires forall k :: 0 <= k < |comps| ==> UserAnswer(comps[k]).Some?
    ensures var out := StateGet(Resolved(r), second, Some(comps), now);
            out.Resolved? && out.response.ok && out.response.status == r.status
            && out.response.statusText == r.statusText && Has(out.response.headers, "content-type")
            && out.response.body.Json? && out.response.body.state.components.Some?
            && forall k :: 0 <= k < |comps| ==>
                 exists j :: 0 <= j < |out.response.body.state.components.value|
                             && out.response.body.state.components.value[j].id == comps[k].id
                             && Completes(out.response.body.state.components.value[j], now)
  {
    var p := Patched(r.body.state, comps, now);
    assert p.Some?;
    EnsureContentTypeSpec(r.headers);
    MergedCompletes(Existing(r.body.state), comps, now);
  }

  /** A thrown fetch, or a patch that throws, ends in a second `originalFetch` of the same request. */
  lemma StateGetRefetches(first: Reply, second: Reply, comps: seq<Component>, now: string)
    requires first.Rejected? || (first.response.ok && comps != [] && first.response.body.Json?
                                 && exists k :: 0 <= k < |comps| && UserAnswer(comps[k]).None?)
    ensures StateGet(first, second, Some(comps), now) == second
  {
  }

  // ---------------------------------------------------------------------------
  // Launch-key capture
  // ---------------------------------------------------------------------------

  /** The path of a launch URL. */
  const LaunchPath: string := "/adl/content/launch/"

  /** A character of the class `[a-f0-9-]` under the `i` flag. */
  predicate KeyChar(c: char) {
    '0' <= c <= '9' || 'a' <= c <= 'f' || 'A' <= c <= 'F' || c == '-'
  }

  /** The regular expression can match at `p`: the path, in any case, followed by at least one key character. */
  predicate LaunchAt(url: string, p: int) {
    0 <= p && p + |LaunchPath| < |url| && OccursAt(Lower(url), LaunchPath, p) && KeyChar(url[p + |LaunchPath|])
  }

  /** The leftmost position at or after `from` where the expression matches. */
  function FirstLaunchFrom(url: string, from: nat): (r: Option<nat>)
    ensures r.Some? ==> from <= r.value && LaunchAt(url, r.value)
    ensures r.Some? ==> forall q :: from <= q < r.value ==> !LaunchAt(url, q)
    ensures r.None? ==> forall q :: from <= q ==> !LaunchAt(url, q)
    decreases |url| - from
  {
    if from + |LaunchPath| >= |url| then None
    else if LaunchAt(url, from) then Some(from)
    else FirstLaunchFrom(url, from + 1)
  }

  /** The end of the greedy run of key characters that starts at `i`. */
  function RunEnd(s: string, i: nat): (e: nat)
    requires i <= |s|
    ensures i <= e <= |s|
    ensures forall k :: i <= k < e ==> KeyChar(s[k])
    ensures e == |s| || !KeyChar(s[e])
    decreases |s| - i
  {
    if i < |s| && KeyChar(s[i]) then RunEnd(s, i + 1) else i
  }

  /** `match[1]` of `url.match(/\/adl\/content\/launch\/([a-f0-9-]+)/i)`, `None` when there is no match. */
  function LaunchKeyOf(url: string): (r: Option<string>)
    ensures r.None? <==> forall p :: !LaunchAt(url, p)
    ensures r.Some? ==> |r.value| > 0 && forall k :: 0 <= k < |r.value| ==> KeyChar(r.value[k])
  {
    match FirstLaunchFrom(url, 0)
    case None => None
    case Some(p) =>
      var start := p + |LaunchPath|;
      var e := RunEnd(url, start);
      assert forall k :: 0 <= k < e - start ==> url[start..e][k] == url[start + k];
      Some(url[start..e])
  }

  /**
   * The key is the maximal run of key characters after the leftmost match of
   * the path: any position and run end with those properties give the key.
   */
  lemma LaunchKeyIs(url: string, p: nat, e: nat)
    requires LaunchAt(url, p) && forall q :: 0 <= q < p ==> !LaunchAt(url, q)
    requires p + |LaunchPath| < e <= |url|
    requires forall k :: p + |LaunchPath| <= k < e ==> KeyChar(url[k])
    requires e == |url| || !KeyChar(url[e])
    ensures LaunchKeyOf(url) == Some(url[p + |LaunchPath|..e])
  {
    var f := FirstLaunchFrom(url, 0);
    assert f == Some(p);
    var start := p + |LaunchPath|;
    var e' := RunEnd(url, start);
  }

  /** A launch URL whose path is written in capitals still yields its key: the `i` flag covers the path too. */
  lemma LaunchKeyIgnoresCase()
    ensures LaunchKeyOf("/ADL/CONTENT/LAUNCH/Ab-") == Some("Ab-")
  {
    var url := "/ADL/CONTENT/LAUNCH/Ab-";
    assert Lower(url)[..20] == LaunchPath by {
      assert forall i :: 0 <= i < 20 ==> Lower(url)[i] == LowerChar(url[i]);
    }
    assert LaunchAt(url, 0);
    assert url[20..23] == "Ab-";
    LaunchKeyIs(url, 0, 23);
  }

  /** `url.split("launch/")[0]`: the service posted with a launch key. */
  function Service(url: string): string {
    SplitPart(url, "launch/", 0).value
  }

  /** On a launch URL the service is the text before the first "launch/": followed by it, it starts the URL. */
  lemma ServiceSpec(url: string)
    requires Includes(url, LaunchPath)
    ensures !Includes(Service(url), "launch/")
    ensures OccursAt(url, Service(url) + "launch/", 0)
  {
    IncludesIff(url, LaunchPath);
    var k :| OccursAt(url, LaunchPath, k);
    assert OccursAt(url, "launch/", k + 13) by {
      assert url[k + 13..k + 20] == LaunchPath[13..];
    }
    IncludesIff(url, "launch/");
    var i := IndexOf(url, "launch/").value;
    assert Service(url) == url[..i];
    assert url[..i + 7] == url[..i] + "launch/";
  }

  /** The message the launch-URL branch posts, if any. */
  function LaunchPost(url: string): seq<Posted> {
    if Includes(url, LaunchPath) then
      match LaunchKeyOf(url)
      case None => []
      case Some(key) => [Posted(key, Some(Service(url)))]
    else []
  }

  /** The message the GraphQL branch posts once the body is read, if any. */
  function GraphQlPost(url: string, r: Response): seq<Posted> {
    if Includes(url, "api.netacad.com/api") && r.body.Json? && r.body.launch.Some? && r.body.launch.value.key != ""
    then [Posted(r.body.launch.value.key, r.body.launch.value.service)]
    else []
  }

  /** A launch URL posts its key exactly when the expression matches, with the service cut from the URL. */
  lemma LaunchPostSpec(url: string)
    ensures |LaunchPost(url)| <= 1
    ensures LaunchPost(url) != [] <==> Includes(url, LaunchPath) && exists p :: LaunchAt(url, p)
    ensures LaunchPost(url) != [] ==>
              LaunchPost(url)[0] == Posted(LaunchKeyOf(url).value, Some(Service(url)))
              && |LaunchPost(url)[0].key| > 0
  {
  }

  /** The GraphQL message goes out only for a truthy `xAPILaunchKey`, and carries that key. */
  lemma GraphQlPostSpec(url: string, r: Response)
    ensures GraphQlPost(url, r) != [] <==>
              Includes(url, "api.netacad.com/api") && r.body.Json? && r.body.launch.Some? && r.body.launch.value.key != ""
    ensures GraphQlPost(url, r) != [] ==> GraphQlPost(url, r) == [Posted(r.body.launch.value.key, r.body.launch.value.service)]
  {
  }

  /**
   * The wrapper with the URL read as text, `URL` objects through their
   * `href`: a state GET goes through `StateGet` and posts nothing; any other
   * request settles as the original fetch does, and once it has a response
   * posts the launch-URL message, and later the GraphQL one.
   */
  function Fetch(args: FetchArgs, first: Reply, second: Reply, comps: Option<seq<Component>>, now: string): Outcome {
    var url := UrlText(args.target);
    if IsStateGet(MethodOf(args), url) then Outcome(StateGet(first, second, comps, now), [])
    else match first
      case Rejected => Outcome(Rejected, [])
      case Resolved(r) => Outcome(first, LaunchPost(url) + GraphQlPost(url, r))
  }

  /**
   * The wrapper as written: a `URL` object is used as the URL itself, so its
   * missing `includes` throws, outside any `try` for a GET and inside the
   * silent one otherwise.
   */
  function FetchAsWritten(args: FetchArgs, first: Reply, second: Reply, comps: Option<seq<Component>>, now: string): Outcome {
    match args.target
    case UrlObject(_) =>
      if MethodOf(args) == "GET" then Outcome(Rejected, [])
      else Outcome(first, [])
    case _ => Fetch(args, first, second, comps, now)
  }

  /** A request is intercepted exactly when its method is "GET" and its URL names the state endpoint with a state id. */
  lemma InterceptedIff(args: FetchArgs, first: Reply, second: Reply, comps: Option<seq<Component>>, now: string)
    ensures IsStateGet(MethodOf(args), UrlText(args.target)) ==>
              Fetch(args, first, second, comps, now) == Outcome(StateGet(first, second, comps, now), [])
    ensures !IsStateGet(MethodOf(args), UrlText(args.target)) ==>
              Fetch(args, first, second, comps, now).reply == first
  {
  }

  /** A request that is not intercepted settles exactly as the original fetch, whose rejection posts nothing. */
  lemma PassThroughPosts(args: FetchArgs, first: Reply, second: Reply, comps: Option<seq<Component>>, now: string)
    requires !IsStateGet(MethodOf(args), UrlText(args.target))
    ensures first.Rejected? ==> Fetch(args, first, second, comps, now) == Outcome(Rejected, [])
    ensures first.Resolved? ==>
              Fetch(args, first, second, comps, now).posted
              == LaunchPost(UrlText(args.target)) + GraphQlPost(UrlText(args.target), first.response)
  {
  }

  /** On a string URL or a `Request` the wrapper as written is the wrapper. */
  lemma AsWrittenAgrees(args: FetchArgs, first: Reply, second: Reply, comps: Option<seq<Component>>, now: string)
    requires !args.target.UrlObject?
    ensures FetchAsWritten(args, first, second, comps, now) == Fetch(args, first, second, comps, now)
  {
  }

  /** `fetch(new URL(...))` with no options is rejected by the wrapper as written, whatever the network answers. */
  lemma AsWrittenRejectsUrlObjects(href: string, r: Response, second: Reply, comps: Option<seq<Component>>, now: string)
    ensures FetchAsWritten(FetchArgs(UrlObject(href), ""), Resolved(r), second, comps, now) == Outcome(Rejected, [])
  {
  }

  /** In the wrapper a `URL` object is handled as its `href` string. */
  lemma UrlObjectAsText(href: string, om: string, first: Reply, second: Reply, comps: Option<seq<Component>>, now: string)
    ensures Fetch(FetchArgs(UrlObject(href), om), first, second, comps, now)
            == Fetch(FetchArgs(Text(href), om), first, second, comps, now)
  {
  }
}
