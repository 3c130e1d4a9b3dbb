/**
 * The background script: the request-header rewrite for component
 * catalogs, and the per-request queue of open tabs that are told about a
 * catalog or launch URL.
 */
module Background {
  import opened Wrappers
  import opened JsStrings
  import opened Http

  // ---------------------------------------------------------------------------
  // `onBeforeSendHeaders`
  // ---------------------------------------------------------------------------

  /** The value that replaces every `Cache-Control` request header. */
  const NoCache: string := "no-cache, no-store, must-revalidate"

  /** The rewrite of one header: a Cache-Control header, in any case, becomes the fixed one. */
  function RewriteHeader(h: Header): Header {
    if Named(h, "cache-control") then Header("Cache-Control", NoCache) else h
  }

  /** The `requestHeaders.map` of the listener. */
  function RewriteHeaders(hs: seq<Header>): seq<Header> {
    seq(|hs|, i requires 0 <= i < |hs| => RewriteHeader(hs[i]))
  }

  /**
   * The rewrite keeps the number and order of the headers: each Cache-Control
   * header is replaced in its place by the fixed one and every other header
   * is passed through as it was.
   */
  lemma RewriteHeadersSpec(hs: seq<Header>)
    ensures |RewriteHeaders(hs)| == |hs|
    ensures forall i :: 0 <= i < |hs| && Named(hs[i], "cache-control") ==>
              RewriteHeaders(hs)[i] == Header("Cache-Control", NoCache)
    ensures forall i :: 0 <= i < |hs| && !Named(hs[i], "cache-control") ==> RewriteHeaders(hs)[i] == hs[i]
  {
  }

  /** The fixed header is itself a Cache-Control header. */
  lemma FixedIsCacheControl()
    ensures Named(Header("Cache-Control", NoCache), "cache-control")
  {
    assert Lower("Cache-Control") == "cache-control" by {
      assert LowerChar('C') == 'c';
    }
  }

  /** Rewriting twice is rewriting once. */
  lemma RewriteIdempotent(hs: seq<Header>)
    ensures RewriteHeaders(RewriteHeaders(hs)) == RewriteHeaders(hs)
  {
    FixedIsCacheControl();
    var once := RewriteHeaders(hs);
    assert forall i :: 0 <= i < |once| ==> RewriteHeader(once[i]) == once[i];
  }

  /** A request without a Cache-Control header is left exactly as it was. */
  lemma NoCacheControlUntouched(hs: seq<Header>)
    requires !Has(hs, "cache-control")
    ensures RewriteHeaders(hs) == hs
  {
  }

  // ---------------------------------------------------------------------------
  // `onSendHeaders`: routing and the pending tabs
  // ---------------------------------------------------------------------------

  /** The message sent to a tab for a request URL. */
  datatype Message = ComponentsUrl(url: string) | LaunchUrl(url: string)

  /** The message for `url`: a catalog URL wins over a launch URL; any other URL sends nothing. */
  function RouteUrl(url: string): (m: Option<Message>)
    ensures m == Some(ComponentsUrl(url)) <==> Includes(url, "components.json")
    ensures m == Some(LaunchUrl(url)) <==> !Includes(url, "components.json") && Includes(url, "/adl/content/launch/")
    ensures m.None? <==> !Includes(url, "components.json") && !Includes(url, "/adl/content/launch/")
  {
    if Includes(url, "components.json") then Some(ComponentsUrl(url))
    else if Includes(url, "/adl/content/launch/") then Some(LaunchUrl(url))
    else None
  }

  /** A browser tab, with `id` 0 and `title` "" standing for falsy values. */
  datatype Tab = Tab(id: nat, title: string)

  /** The tabs of `tabs.query({})` that enter the pending list: those with a truthy `id` and `title`. */
  function PendingTabs(all: seq<Tab>): seq<Tab>
    decreases |all|
  {
    if all == [] then []
    else
      var rest := PendingTabs(all[..|all| - 1]);
      var t := all[|all| - 1];
      if t.id != 0 && t.title != "" then rest + [t] else rest
  }

  /** The pending list holds exactly the tabs with a truthy id and title, in query order. */
  lemma {:induction false} PendingTabsSpec(all: seq<Tab>)
    ensures forall t :: t in PendingTabs(all) <==> t in all && t.id != 0 && t.title != ""
    ensures |PendingTabs(all)| <= |all|
    decreases |all|
  {
    if all != [] {
      PendingTabsSpec(all[..|all| - 1]);
      assert all == all[..|all| - 1] + [all[|all| - 1]];
    }
  }

  /** One `sendMessage` call: the tab's id and the message. */
  datatype Send = Send(tab: nat, message: Message)

  /**
   * The send step threw for this tab: a message went out and `sendMessage`
   * rejected (`throws` stands for the browser's answer, a tab without a
   * listener, say).
   */
  predicate Refused(route: Option<Message>, throws: nat -> bool, t: Tab) {
    route.Some? && throws(t.id)
  }

  /** The first `n` tabs that stay pending after a tick: exactly those whose send threw, in order. */
  function Kept(tabs: seq<Tab>, n: nat, route: Option<Message>, throws: nat -> bool): seq<Tab>
    requires n <= |tabs|
    decreases n
  {
    if n == 0 then []
    else
      var rest := Kept(tabs, n - 1, route, throws);
      if Refused(route, throws, tabs[n - 1]) then rest + [tabs[n - 1]] else rest
  }

  /** The sends of a tick to the first `n` tabs: one each, in order, when the URL routes to a message. */
  function Sends(tabs: seq<Tab>, n: nat, route: Option<Message>): seq<Send>
    requires n <= |tabs|
    decreases n
  {
    if n == 0 then []
    else
      var rest := Sends(tabs, n - 1, route);
      match route
      case None => rest
      case Some(m) => rest + [Send(tabs[n - 1].id, m)]
  }

  /** A tab stays pending exactly when its send threw; the others stay in order. */
  lemma {:induction false} KeptSpec(tabs: seq<Tab>, n: nat, route: Option<Message>, throws: nat -> bool)
    requires n <= |tabs|
    ensures forall t :: t in Kept(tabs, n, route, throws) <==> t in tabs[..n] && Refused(route, throws, t)
    ensures |Kept(tabs, n, route, throws)| <= n
    decreases n
  {
    if n > 0 {
      KeptSpec(tabs, n - 1, route, throws);
      assert tabs[..n] == tabs[..n - 1] + [tabs[n - 1]];
    }
  }

  /** When no send throws, a tick empties the list. */
  lemma {:induction false} AllDeliveredEmpties(tabs: seq<Tab>, n: nat, route: Option<Message>, throws: nat -> bool)
    requires n <= |tabs|
    requires forall t :: t in tabs ==> !Refused(route, throws, t)
    ensures Kept(tabs, n, route, throws) == []
    decreases n
  {
    if n > 0 {
      AllDeliveredEmpties(tabs, n - 1, route, throws);
    }
  }

  /** Each tab is sent the routed message once, in list order. */
  lemma {:induction false} SendsSpec(tabs: seq<Tab>, n: nat, route: Option<Message>)
    requires n <= |tabs|
    ensures route.None? ==> Sends(tabs, n, route) == []
    ensures route.Some? ==>
              |Sends(tabs, n, route)| == n
              && forall i :: 0 <= i < n ==> Sends(tabs, n, route)[i] == Send(tabs[i].id, route.value)
    decreases n
  {
    if n > 0 {
      SendsSpec(tabs, n - 1, route);
    }
  }

  /** One step of the tick loop at the first unvisited tab: what the splice leaves and what is kept. */
  lemma TickStep(start: seq<Tab>, done: nat, kept: seq<Tab>, route: Option<Message>, throws: nat -> bool)
    requires done < |start|
    requires kept == Kept(start, done, route, throws)
    ensures (kept + start[done..])[|kept|] == start[done]
    ensures Refused(route, throws, start[done]) ==>
              Kept(start, done + 1, route, throws) == kept + [start[done]]
              && kept + start[done..] == (kept + [start[done]]) + start[done + 1..]
    ensures !Refused(route, throws, start[done]) ==>
              Kept(start, done + 1, route, throws) == kept
              && (kept + start[done..])[..|kept|] + (kept + start[done..])[|kept| + 1..] == kept + start[done + 1..]
  {
    assert start[done..][1..] == start[done + 1..];
    assert start[done..] == [start[done]] + start[done + 1..];
  }

  /**
   * The state of one `onSendHeaders` call: its `tabs` list and whether its
   * `sendInterval` has been cleared.
   */
  class TabQueue {
    var tabs: seq<Tab>
    var cleared: bool

    /** The list after `tabs.query({})` and the filter. */
    constructor (all: seq<Tab>)
      ensures tabs == PendingTabs(all) && !cleared
    {
      tabs := PendingTabs(all);
      cleared := false;
    }

    /**
     * One tick of `handleSendUrl`: every pending tab is sent the message for
     * `url`; a tab whose send did not throw is spliced out, and the interval
     * is cleared once the list becomes empty.
     */
    method SendTick(url: string, throws: nat -> bool) returns (sent: seq<Send>)
      modifies this
      ensures tabs == Kept(old(tabs), |old(tabs)|, RouteUrl(url), throws)
      ensures sent == Sends(old(tabs), |old(tabs)|, RouteUrl(url))
      ensures cleared == (old(cleared) || (old(tabs) != [] && tabs == []))
    {
      var pending, emptied;
      pending, sent, emptied := Tick(tabs, RouteUrl(url), throws);
      tabs, cleared := pending, cleared || emptied;
    }
  }

  /**
   * The loop of `handleSendUrl` over a list of tabs: the message (if any) is
   * sent to each tab in turn, and the tab is spliced out when its send did not
   * throw; `emptied` tells whether a splice left the list empty.
   */
  method Tick(start: seq<Tab>, route: Option<Message>, throws: nat -> bool)
    returns (pending: seq<Tab>, sent: seq<Send>, emptied: bool)
    ensures pending == Kept(start, |start|, route, throws)
    ensures sent == Sends(start, |start|, route)
    ensures emptied == (start != [] && pending == [])
  {
    pending, sent, emptied := start, [], false;
    ghost var kept: seq<Tab> := [];
    ghost var done := 0;
    var i: int := 0;
    while i < |pending|
      invariant 0 <= done <= |start|
      invariant kept == Kept(start, done, route, throws)
      invariant pending == kept + start[done..]
      invariant i == |kept|
      invariant sent == Sends(start, done, route)
      invariant emptied == (done > 0 && pending == [])
      decreases |start| - done
    {
      TickStep(start, done, kept, route, throws);
      var tab := pending[i];
      var threw := false;
      match route {
        case Some(m) =>
          sent := sent + [Send(tab.id, m)];
          threw := throws(tab.id);
        case None =>
      }
      if threw {
        kept := kept + [tab];
      } else {
        // `tabs.splice(i, 1); i--;` so that the loop's `i++` revisits index `i`
        pending := pending[..i] + pending[i + 1..];
        i := i - 1;
        emptied := |pending| == 0;
      }
      i := i + 1;
      done := done + 1;
    }
  }
}
