/**
 * The pure decisions of `submitQuizViaApi` and `saveStateViaApi`: where the
 * launch parameters come from, the course prefix and activity ids, the
 * response string of each question, the statement list, the Authorization
 * header and retry, the overall outcome, and the state id and document
 * that the state save would post.
 */
module Submission {
  import opened Wrappers
  import opened JsStrings
  import opened Descriptors
  import opened StatePatch

  // ---------------------------------------------------------------------------
  // Token and launch parameters
  // ---------------------------------------------------------------------------

  /**
   * The `AuthToken` read from this frame's storage, or, when that is falsy
   * and the script runs in a frame, from the top frame's (`None` when
   * reading it throws); "" stands for a missing token.
   */
  function TokenOf(own: string, framed: bool, top: Option<string>): (t: string)
    ensures own != "" ==> t == own
    ensures t != "" ==> t == own || (framed && top == Some(t))
  {
    if own != "" then own else if framed then top.GetOr("") else ""
  }

  /** The `xAPILaunchKey` and `xAPILaunchService` entries of session storage ("" for a missing one). */
  datatype Stored = Stored(key: string, service: string)

  /**
   * Where the launch parameters can come from: the caller's overrides, the
   * page's query string, and session storage (`None` when reading it throws);
   * "" stands for an absent value.
   */
  datatype LaunchSources = LaunchSources(overrideKey: string, overrideService: string,
                                         urlKey: string, urlService: string, moduleNumber: string,
                                         storage: Option<Stored>)

  /** The launch key, the normalised service root and the course prefix of a submission. */
  datatype Launch = Launch(key: string, service: string, prefix: string)

  /** `overrides.launchKey || urlParams.get("xAPILaunchKey")`. */
  function FirstKey(src: LaunchSources): string {
    if src.overrideKey != "" then src.overrideKey else src.urlKey
  }

  /** `overrides.launchService || urlParams.get("xAPILaunchService")`. */
  function FirstService(src: LaunchSources): string {
    if src.overrideService != "" then src.overrideService else src.urlService
  }

  /** The service root with its first "/content/" turned into "/". */
  function NormaliseService(s: string): (r: string)
    ensures IndexOf(s, "/content/").None? ==> r == s
    ensures IndexOf(s, "/content/").Some? ==>
              var k := IndexOf(s, "/content/").value;
              r == s[..k] + "/" + s[k + 9..]
  {
    ReplaceFirst(s, "/content/", "/")
  }

  /** Normalising never turns a present service into an absent one, nor the reverse. */
  lemma NormaliseKeepsPresence(s: string)
    ensures NormaliseService(s) == "" <==> s == ""
  {
    if IndexOf(s, "/content/").Some? {
      var k := IndexOf(s, "/content/").value;
      assert NormaliseService(s)[k] == '/';
    }
  }

  /** A service root served under `/content/` is moved up to its parent. */
  lemma NormaliseContentRoot()
    ensures NormaliseService("x/adl/content/") == "x/adl/"
  {
    var s := "x/adl/content/";
    assert OccursAt(s, "/content/", 5) by {
      assert s[5..14] == "/content/";
    }
    forall k | 0 <= k < 5
      ensures !OccursAt(s, "/content/", k)
    {
      assert s[k + 1] != 'c';
    }
    IndexOfIs(s, "/content/", 5);
  }

  /** `https://pe1-m${moduleNumber}-v1`, module 0 when the number is absent. */
  function CoursePrefix(moduleNumber: string): (p: string) {
    "https://pe1-m" + (if moduleNumber != "" then moduleNumber else "0") + "-v1"
  }

  /** The prefix names the module between its fixed head and tail, so the module number reads back from it. */
  lemma CoursePrefixParts(moduleNumber: string)
    ensures var p := CoursePrefix(moduleNumber);
            StartsWith(p, "https://pe1-m") && EndsWith(p, "-v1")
            && p[13..|p| - 3] == (if moduleNumber != "" then moduleNumber else "0")
  {
    var p := CoursePrefix(moduleNumber);
    var m := if moduleNumber != "" then moduleNumber else "0";
    assert p == "https://pe1-m" + m + "-v1";
    assert p[..13] == "https://pe1-m";
    assert p[|p| - 3..] == "-v1";
  }

  /**
   * The launch parameters of a submission: the key and service from the
   * overrides or the URL, both replaced by session storage when the key is
   * missing, the service normalised; `None` when the key or the service is
   * missing.
   */
  function ResolveLaunch(src: LaunchSources): (r: Option<Launch>)
    ensures r.Some? ==> r.value.key != "" && r.value.service != "" && r.value.prefix == CoursePrefix(src.moduleNumber)
  {
    var fromStorage := FirstKey(src) == "" && src.storage.Some?;
    var key := if fromStorage then src.storage.value.key else FirstKey(src);
    var service := NormaliseService(if fromStorage then src.storage.value.service else FirstService(src));
    if key == "" || service == "" then None else Some(Launch(key, service, CoursePrefix(src.moduleNumber)))
  }

  /**
   * The priority of the launch parameters: an override or URL key is used
   * with the override or URL service; without one, session storage supplies
   * both, discarding an override service; without readable storage the
   * submission has no key.
   */
  lemma LaunchPriority(src: LaunchSources)
    ensures FirstKey(src) != "" ==>
              (ResolveLaunch(src).Some? <==> FirstService(src) != "")
              && (ResolveLaunch(src).Some? ==>
                    ResolveLaunch(src).value.key == FirstKey(src)
                    && ResolveLaunch(src).value.service == NormaliseService(FirstService(src)))
    ensures FirstKey(src) == "" && src.storage.Some? ==>
              (ResolveLaunch(src).Some? <==> src.storage.value.key != "" && src.storage.value.service != "")
              && (ResolveLaunch(src).Some? ==>
                    ResolveLaunch(src).value.key == src.storage.value.key
                    && ResolveLaunch(src).value.service == NormaliseService(src.storage.value.service))
    ensures FirstKey(src) == "" && src.storage.None? ==> ResolveLaunch(src).None?
    ensures src.overrideKey != "" && ResolveLaunch(src).Some? ==> ResolveLaunch(src).value.key == src.overrideKey
  {
    NormaliseKeepsPresence(FirstService(src));
    if src.storage.Some? {
      NormaliseKeepsPresence(src.storage.value.service);
    }
  }

  // ---------------------------------------------------------------------------
  // The response of one question
  // ---------------------------------------------------------------------------

  /** What the statement loop makes of a component: skip it, answer with a response string, or throw. */
  datatype Answer = Skip | Respond(text: string) | Throws

  /** `item._id || index`, the index written in decimal as `join` writes a number. */
  function McqPart(items: seq<Item>, i: nat): (p: string)
    requires i < |items|
    ensures p != ""
  {
    if items[i].internalId != "" then items[i].internalId else NatToString(i)
  }

  /** The indices of the selected items among the first `n`, in order. */
  function Selected(items: seq<Item>, n: nat): (r: seq<nat>)
    requires n <= |items|
    ensures forall k :: 0 <= k < |r| ==> r[k] < n
    decreases n
  {
    if n == 0 then []
    else Selected(items, n - 1) + (if items[n - 1].shouldBeSelected then [n - 1] else [])
  }

  /** `Selected` lists exactly the selected indices, in increasing order. */
  lemma {:induction false} SelectedSpec(items: seq<Item>, n: nat)
    requires n <= |items|
    ensures forall k :: k in Selected(items, n) <==> 0 <= k < n && items[k].shouldBeSelected
    ensures forall a, b :: 0 <= a < b < |Selected(items, n)| ==> Selected(items, n)[a] < Selected(items, n)[b]
    decreases n
  {
    if n > 0 {
      SelectedSpec(items, n - 1);
    }
  }

  /** The `correctIndices` of the mcq branch: the `_id || index` of every selected item, in item order. */
  function McqParts(items: seq<Item>): (parts: seq<string>) {
    var sel := Selected(items, |items|);
    seq(|sel|, k requires 0 <= k < |sel| => McqPart(items, sel[k]))
  }

  /** `opt.id || opt._id`. */
  function ChoicePart(c: Choice): string {
    if c.id != "" then c.id else c.internalId
  }

  /** The pushes of one `_options.forEach`: the `id || _id` of each correct choice, in list order. */
  function ChoiceParts(cs: seq<Choice>): seq<string>
    decreases |cs|
  {
    if cs == [] then []
    else ChoiceParts(cs[..|cs| - 1]) + (if Correct(cs[|cs| - 1]) then [ChoicePart(cs[|cs| - 1])] else [])
  }

  /**
   * `correctOptions` of the options branch: the choice parts of every item
   * with a truthy `_options`, item after item; `None` when an item's
   * `_options` is a record, whose missing `forEach` throws.
   */
  function OptionParts(items: seq<Item>): Option<seq<string>>
    decreases |items|
  {
    if items == [] then Some([])
    else match OptionParts(items[..|items| - 1])
      case None => None
      case Some(ps) =>
        match items[|items| - 1].options
        case NoOptions => Some(ps)
        case OptionRecord(_) => None
        case OptionList(cs) => Some(ps + ChoiceParts(cs))
  }

  /** The choice parts are the parts of the correct choices, one for each correct index. */
  lemma {:induction false} ChoicePartsSpec(cs: seq<Choice>)
    ensures |ChoiceParts(cs)| == |CorrectOf(cs)|
    ensures forall j :: 0 <= j < |CorrectOf(cs)| ==> CorrectOf(cs)[j] < |cs| && ChoiceParts(cs)[j] == ChoicePart(cs[CorrectOf(cs)[j]])
    decreases |cs|
  {
    CorrectOfSpec(cs);
    if cs != [] {
      var init := cs[..|cs| - 1];
      ChoicePartsSpec(init);
      CorrectOfSpec(init);
      forall j | 0 <= j < |CorrectOf(init)| ensures cs[CorrectOf(init)[j]] == init[CorrectOf(init)[j]] {
        assert CorrectOf(init)[j] in CorrectOf(init);
      }
    }
  }

  /** The options branch throws once some item's `_options` is a record; otherwise it yields a part list. */
  lemma {:induction false} OptionPartsIff(items: seq<Item>)
    ensures OptionParts(items).None? <==> exists i :: 0 <= i < |items| && items[i].options.OptionRecord?
    decreases |items|
  {
    if items != [] {
      var init := items[..|items| - 1];
      OptionPartsIff(init);
      if OptionParts(init).None? {
        var i :| 0 <= i < |init| && init[i].options.OptionRecord?;
        assert items[i] == init[i];
      } else if !items[|items| - 1].options.OptionRecord? {
        forall i | 0 <= i < |items| ensures !items[i].options.OptionRecord? {
          if i < |init| {
            assert items[i] == init[i];
          }
        }
      }
    }
  }

  /** The response string of a part list: nothing for no parts, and nothing when the joined string is empty. */
  function Responded(parts: seq<string>): Answer {
    if parts == [] then Skip
    else var text := Join(parts, "[,]"); if text == "" then Skip else Respond(text)
  }

  /** The answer of one component of the statement loop. */
  function ResponseOf(c: Component): Answer {
    if c.items.None? || c.items.value == [] then Skip
    else
      var items := c.items.value;
      if c.kind == "mcq" then Responded(McqParts(items))
      else if items[0].options.NoOptions? then Skip
      else
        // A single item's own `forEach` and the loop over all items push the same parts.
        match OptionParts(items)
        case None => Throws
        case Some(parts) => Responded(parts)
  }

  /** A join whose first part is not empty is not empty. */
  lemma {:induction false} JoinNonEmpty(parts: seq<string>, sep: string)
    requires parts != [] && parts[0] != ""
    ensures Join(parts, sep) != ""
  {
    if |parts| > 1 {
      assert (parts[0] + sep + Join(parts[1..], sep))[0] == parts[0][0];
    }
  }

  /**
   * The outcomes of a component: no items means skip; an mcq answers exactly
   * when an item is selected; other components throw exactly when their first
   * item has options and some item's options are a record, and an answer is
   * never empty.
   */
  lemma ResponseOfSpec(c: Component)
    ensures c.items.None? || c.items == Some([]) ==> ResponseOf(c) == Skip
    ensures c.kind == "mcq" && c.items.Some? && c.items.value != [] ==>
              (ResponseOf(c).Respond? <==> exists i :: 0 <= i < |c.items.value| && c.items.value[i].shouldBeSelected)
    ensures ResponseOf(c) == Throws <==>
              c.kind != "mcq" && c.items.Some? && c.items.value != [] && !c.items.value[0].options.NoOptions?
              && exists i :: 0 <= i < |c.items.value| && c.items.value[i].options.OptionRecord?
    ensures ResponseOf(c).Respond? ==> ResponseOf(c).text != ""
  {
    if c.items.Some? && c.items.value != [] {
      var items := c.items.value;
      OptionPartsIff(items);
      if c.kind == "mcq" {
        SelectedSpec(items, |items|);
        var parts := McqParts(items);
        if parts != [] {
          JoinNonEmpty(parts, "[,]");
          assert Selected(items, |items|)[0] in Selected(items, |items|);
        }
      }
    }
  }

  /** The inner `forEach` of the options branch: the parts of one list appended to `acc`. */
  method PushChoiceParts(cs: seq<Choice>, acc: seq<string>) returns (r: seq<string>)
    ensures r == acc + ChoiceParts(cs)
  {
    r := acc;
    var k := 0;
    while k < |cs|
      invariant 0 <= k <= |cs|
      invariant r == acc + ChoiceParts(cs[..k])
    {
      assert cs[..k + 1][..k] == cs[..k];
      if Correct(cs[k]) {
        r := r + [if cs[k].id != "" then cs[k].id else cs[k].internalId];
      }
      k := k + 1;
    }
    assert cs[..|cs|] == cs;
  }

  /** The `forEach` of the mcq branch, pushing `item._id || index` for each selected item. */
  method PushMcqParts(items: seq<Item>) returns (parts: seq<string>)
    ensures parts == McqParts(items)
  {
    parts := [];
    ghost var sel: seq<nat> := [];
    var i := 0;
    while i < |items|
      invariant 0 <= i <= |items|
      invariant sel == Selected(items, i)
      invariant |parts| == |sel|
      invariant forall k :: 0 <= k < |sel| ==> parts[k] == McqPart(items, sel[k])
    {
      if items[i].shouldBeSelected {
        parts := parts + [if items[i].internalId != "" then items[i].internalId else NatToString(i)];
        sel := sel + [i];
      }
      i := i + 1;
    }
  }

  /** The response computation of one pass of the statement loop. */
  method ComputeResponse(c: Component) returns (a: Answer)
    ensures a == ResponseOf(c)
  {
    if c.items.None? || |c.items.value| == 0 {
      return Skip;
    }
    var items := c.items.value;
    var parts: seq<string> := [];
    if c.kind == "mcq" {
      parts := PushMcqParts(items);
    } else if !items[0].options.NoOptions? {
      var i := 0;
      while i < |items|
        invariant 0 <= i <= |items|
        invariant OptionParts(items[..i]) == Some(parts)
      {
        assert items[..i + 1][..i] == items[..i];
        match items[i].options {
          case NoOptions =>
          case OptionRecord(_) =>
            OptionPartsIff(items);
            OptionPartsIff(items[..i + 1]);
            return Throws;
          case OptionList(cs) =>
            parts := PushChoiceParts(cs, parts);
        }
        i := i + 1;
      }
      assert items[..|items|] == items;
    } else {
      return Skip;
    }
    if |parts| == 0 {
      return Skip;
    }
    var text := Join(parts, "[,]");
    if text == "" {
      return Skip;
    }
    return Respond(text);
  }

  // ---------------------------------------------------------------------------
  // Statements
  // ---------------------------------------------------------------------------

  /** The fields of an `answered` statement that come from the component. */
  datatype Statement = Statement(activityId: string, name: string, description: string, response: string)

  /** The component's `_id` when it is already a URL, and otherwise the id under the course prefix. */
  function ActivityId(c: Component, prefix: string): string {
    if StartsWith(c.id, "http") then c.id else prefix + "#/id/" + c.id
  }

  /** An activity id is always a URL under a URL prefix, and it always ends with the component's id. */
  lemma ActivityIdShape(c: Component, prefix: string)
    requires StartsWith(prefix, "http")
    ensures StartsWith(ActivityId(c, prefix), "http") && EndsWith(ActivityId(c, prefix), c.id)
    ensures !StartsWith(c.id, "http") ==> StartsWith(ActivityId(c, prefix), prefix + "#/id/")
  {
    var a := ActivityId(c, prefix);
    if !StartsWith(c.id, "http") {
      assert a == (prefix + "#/id/") + c.id;
      assert a[..|prefix|] == prefix;
      assert a[..4] == prefix[..4];
    }
  }

  /** The statement for a component answered with `text`: `title || "Question"`, `body || ""`. */
  function StatementFor(c: Component, text: string, prefix: string): Statement {
    Statement(ActivityId(c, prefix), if c.title != "" then c.title else "Question", c.body, text)
  }

  /** The statements of the loop, in component order; `None` when a component's response throws. */
  function Statements(comps: seq<Component>, prefix: string): Option<seq<Statement>>
    decreases |comps|
  {
    if comps == [] then Some([])
    else match Statements(comps[..|comps| - 1], prefix)
      case None => None
      case Some(ss) =>
        var c := comps[|comps| - 1];
        match ResponseOf(c)
        case Throws => None
        case Skip => Some(ss)
        case Respond(text) => Some(ss + [StatementFor(c, text, prefix)])
  }

  /** The components that yield a statement: those whose response is a string. */
  predicate Answering(comps: seq<Component>, k: int) {
    0 <= k < |comps| && ResponseOf(comps[k]).Respond?
  }

  /** The loop fails exactly when a component throws. */
  lemma {:induction false} StatementsIff(comps: seq<Component>, prefix: string)
    ensures Statements(comps, prefix).None? <==> exists k :: 0 <= k < |comps| && ResponseOf(comps[k]) == Throws
    decreases |comps|
  {
    if comps != [] {
      var init := comps[..|comps| - 1];
      StatementsIff(init, prefix);
      if Statements(init, prefix).None? {
        var k :| 0 <= k < |init| && ResponseOf(init[k]) == Throws;
        assert comps[k] == init[k];
      } else if ResponseOf(comps[|comps| - 1]) != Throws {
        forall k | 0 <= k < |comps| ensures ResponseOf(comps[k]) != Throws {
          if k < |init| {
            assert comps[k] == init[k];
          }
        }
      }
    }
  }

  /** Component `k` answers, and `x` is its statement. */
  predicate Yields(comps: seq<Component>, prefix: string, k: int, x: Statement) {
    Answering(comps, k) && x == StatementFor(comps[k], ResponseOf(comps[k]).text, prefix)
  }

  /** Every statement of the loop is the statement of an answering component. */
  lemma {:induction false} StatementsSound(comps: seq<Component>, prefix: string, x: Statement)
    requires Statements(comps, prefix).Some? && x in Statements(comps, prefix).value
    ensures exists k :: Yields(comps, prefix, k, x)
    decreases |comps|
  {
    var init := comps[..|comps| - 1];
    var last := |comps| - 1;
    if x in Statements(init, prefix).value {
      StatementsSound(init, prefix, x);
      var k :| Yields(init, prefix, k, x);
      assert init[k] == comps[k];
      assert Yields(comps, prefix, k, x);
    } else {
      assert Yields(comps, prefix, last, x);
    }
  }

  /** Every answering component has its statement in the loop's result. */
  lemma {:induction false} StatementsComplete(comps: seq<Component>, prefix: string, k: nat)
    requires Statements(comps, prefix).Some? && Answering(comps, k)
    ensures StatementFor(comps[k], ResponseOf(comps[k]).text, prefix) in Statements(comps, prefix).value
    decreases |comps|
  {
    var init := comps[..|comps| - 1];
    if k < |comps| - 1 {
      assert init[k] == comps[k];
      StatementsComplete(init, prefix, k);
    }
  }

  /** When the loop does not throw, it holds one statement per answering component and nothing else. */
  lemma {:induction false} StatementsMembers(comps: seq<Component>, prefix: string)
    requires Statements(comps, prefix).Some?
    ensures |Statements(comps, prefix).value| <= |comps|
    ensures forall x :: x in Statements(comps, prefix).value <==> exists k :: Yields(comps, prefix, k, x)
    decreases |comps|
  {
    if comps != [] {
      StatementsMembers(comps[..|comps| - 1], prefix);
    }
    forall x | x in Statements(comps, prefix).value ensures exists k :: Yields(comps, prefix, k, x) {
      StatementsSound(comps, prefix, x);
    }
    forall x, k | Yields(comps, prefix, k, x) ensures x in Statements(comps, prefix).value {
      StatementsComplete(comps, prefix, k);
    }
  }

  /** The `for ... of` loop that pushes one statement per answering component. */
  method BuildStatements(comps: seq<Component>, prefix: string) returns (r: Option<seq<Statement>>)
    ensures r == Statements(comps, prefix)
  {
    var statements: seq<Statement> := [];
    var i := 0;
    while i < |comps|
      invariant 0 <= i <= |comps|
      invariant Statements(comps[..i], prefix) == Some(statements)
    {
      assert comps[..i + 1][..i] == comps[..i];
      var c := comps[i];
      var a := ComputeResponse(c);
      match a {
        case Throws =>
          StatementsIff(comps, prefix);
          StatementsIff(comps[..i + 1], prefix);
          return None;
        case Skip =>
        case Respond(text) =>
          statements := statements + [Statement(ActivityId(c, prefix), if c.title != "" then c.title else "Question", c.body, text)];
      }
      i := i + 1;
    }
    assert comps[..|comps|] == comps;
    return Some(statements);
  }

  // ---------------------------------------------------------------------------
  // Sending the statements
  // ---------------------------------------------------------------------------

  /** `Bearer ${token}`, absent for a falsy token or the string "undefined". */
  function AuthHeader(token: string): (h: Option<string>)
    ensures h.None? <==> token == "" || token == "undefined"
    ensures h.Some? ==> StartsWith(h.value, "Bearer ") && h.value[7..] == token
  {
    if token == "" || token == "undefined" then None else Some("Bearer " + token)
  }

  /** What a `fetch` POST settles to: a thrown error with its message, or a status. */
  datatype PostResult = PostThrew(message: string) | Replied(ok: bool, status: nat)

  /** The POSTs made (each flagged with whether it carried Authorization) and the error message, if any. */
  datatype Delivery = Delivery(withAuth: seq<bool>, error: Option<string>)

  /** The message of the error thrown for a failed status. */
  function StatusError(status: nat): string {
    "Status " + NatToString(status)
  }

  /**
   * Sending the statements: a failure after sending Authorization is retried
   * once without it; `second` is what that retry settles to.
   */
  function Deliver(auth: Option<string>, first: PostResult, second: PostResult): Delivery {
    match first
    case PostThrew(m) => Delivery([auth.Some?], Some(m))
    case Replied(ok, status) =>
      if ok then Delivery([auth.Some?], None)
      else if auth.Some? then
        match second
        case PostThrew(m) => Delivery([true, false], Some(m))
        case Replied(ok2, status2) => Delivery([true, false], if ok2 then None else Some(StatusError(status2)))
      else Delivery([false], Some(StatusError(status)))
  }

  /**
   * The first POST carries Authorization exactly when a header was made; a
   * second POST, without it, happens exactly when that one answered with a
   * failure; delivery succeeds when a POST answers ok.
   */
  lemma DeliverSpec(auth: Option<string>, first: PostResult, second: PostResult)
    ensures var d := Deliver(auth, first, second);
            1 <= |d.withAuth| <= 2 && d.withAuth[0] == auth.Some?
            && (|d.withAuth| == 2 <==> auth.Some? && first.Replied? && !first.ok)
            && (|d.withAuth| == 2 ==> !d.withAuth[1])
            && (d.error.None? <==> (first.Replied? && first.ok)
                                   || (|d.withAuth| == 2 && second.Replied? && second.ok))
            && (first.Replied? && !first.ok && auth.None? ==> d.error == Some(StatusError(first.status)))
  {
  }

  // ---------------------------------------------------------------------------
  // The outcome of a submission
  // ---------------------------------------------------------------------------

  /** What `submitQuizViaApi` resolves to, or `Crashed` when a throw escapes it. */
  datatype SubmitResult = Failed(error: string) | Submitted | Crashed

  const NoToken: string := "No AuthToken found. Please log in."
  const InvalidToken: string := "Invalid AuthToken"
  const MissingLaunch: string := "Missing launch parameters. Please refresh the page."
  const NoQuestions: string := "No questions found to submit"

  /**
   * The submission, given the resolved token, whether `parseJwt` could read
   * it, the launch sources, the components and what the POST (and its retry)
   * settle to. The state save that follows cannot change the outcome.
   */
  function Submit(token: string, parses: bool, src: LaunchSources, comps: seq<Component>,
                  first: PostResult, second: PostResult): SubmitResult
  {
    if token == "" then Failed(NoToken)
    else if !parses then Failed(InvalidToken)
    else match ResolveLaunch(src)
      case None => Failed(MissingLaunch)
      case Some(launch) =>
        match Statements(comps, launch.prefix)
        case None => Crashed
        case Some(ss) =>
          if ss == [] then Failed(NoQuestions)
          else match Deliver(AuthHeader(token), first, second).error
            case Some(m) => Failed(m)
            case None => Submitted
  }

  /**
   * The checks run in order: token, token contents, launch parameters,
   * statements, delivery; a submission succeeds exactly when all of them
   * pass, and its message names the first that fails.
   */
  lemma SubmitSpec(token: string, parses: bool, src: LaunchSources, comps: seq<Component>,
                   first: PostResult, second: PostResult)
    ensures var r := Submit(token, parses, src, comps, first, second);
            (token == "" ==> r == Failed(NoToken))
            && (token != "" && !parses ==> r == Failed(InvalidToken))
            && (token != "" && parses && ResolveLaunch(src).None? ==> r == Failed(MissingLaunch))
            && (r == Crashed <==>
                  token != "" && parses && ResolveLaunch(src).Some?
                  && exists k :: 0 <= k < |comps| && ResponseOf(comps[k]) == Throws)
            && (r == Submitted <==>
                  token != "" && parses && ResolveLaunch(src).Some?
                  && Statements(comps, ResolveLaunch(src).value.prefix).Some?
                  && Statements(comps, ResolveLaunch(src).value.prefix).value != []
                  && Deliver(AuthHeader(token), first, second).error.None?)
  {
    if token != "" && parses && ResolveLaunch(src).Some? {
      StatementsIff(comps, ResolveLaunch(src).value.prefix);
    }
  }

  /** A component list none of which answers ends in "No questions found to submit". */
  lemma {:induction false} NothingToSubmit(comps: seq<Component>, prefix: string)
    requires forall k :: 0 <= k < |comps| ==> ResponseOf(comps[k]) == Skip
    ensures Statements(comps, prefix) == Some([])
    decreases |comps|
  {
    if comps != [] {
      NothingToSubmit(comps[..|comps| - 1], prefix);
    }
  }

  // ---------------------------------------------------------------------------
  // The state save
  // ---------------------------------------------------------------------------

  const StateSuffix: string := "_state_data"

  /** `stateIds.find((id) => id.endsWith("_state_data"))`. */
  function FirstStateId(ids: seq<string>): (r: Option<string>)
    ensures r.Some? ==> r.value in ids && EndsWith(r.value, StateSuffix)
    ensures r.None? ==> forall k :: 0 <= k < |ids| ==> !EndsWith(ids[k], StateSuffix)
  {
    if ids == [] then None
    else if EndsWith(ids[0], StateSuffix) then Some(ids[0])
    else FirstStateId(ids[1..])
  }

  /** The first listed id with the suffix is the one found. */
  lemma {:induction false} FirstStateIdIs(ids: seq<string>, k: nat)
    requires k < |ids| && EndsWith(ids[k], StateSuffix)
    requires forall j :: 0 <= j < k ==> !EndsWith(ids[j], StateSuffix)
    ensures FirstStateId(ids) == Some(ids[k])
  {
    if k > 0 {
      FirstStateIdIs(ids[1..], k - 1);
    }
  }

  /** `s.replace(/-/g, "")`. */
  function Undashed(s: string): (r: string)
    ensures '-' !in r && |r| <= |s|
    ensures '-' !in s ==> r == s
  {
    if s == [] then []
    else (if s[0] == '-' then [] else [s[0]]) + Undashed(s[1..])
  }

  /**
   * The state id: the first listed id ending in "_state_data" (`None` for a
   * list that could not be fetched), or else one made from a random UUID.
   */
  function ChooseStateId(listed: Option<seq<string>>, uuid: string): (id: string)
    ensures EndsWith(id, StateSuffix)
  {
    var found := if listed.Some? then FirstStateId(listed.value) else None;
    if found.Some? then found.value
    else
      var id := Undashed(uuid) + StateSuffix;
      assert id[|id| - |StateSuffix|..] == StateSuffix;
      id
  }

  /** A listed id is reused when one has the suffix; otherwise the id is the dashless UUID with the suffix. */
  lemma ChooseStateIdSpec(listed: Option<seq<string>>, uuid: string)
    ensures listed.Some? && FirstStateId(listed.value).Some? ==>
              ChooseStateId(listed, uuid) == FirstStateId(listed.value).value
    ensures listed.None? || FirstStateId(listed.value).None? ==>
              ChooseStateId(listed, uuid) == Undashed(uuid) + StateSuffix
              && '-' !in ChooseStateId(listed, uuid)
  {
  }

  /**
   * The document the save starts from: a copy of the fetched state (`None`
   * when none was fetched), or a fresh one whose course carries the
   * activity id; `offlineStorage` is made truthy either way.
   */
  function BaseState(current: Option<State>, activityId: string): (s: State)
    ensures s.offlineStorage
    ensures current.Some? ==> s == current.value.(offlineStorage := true)
    ensures current.None? ==>
              s.components == Some([]) && s.articles == Some([]) && s.blocks == Some([]) && s.contentObjects == Some([])
              && s.course == Some(Node(activityId, false, false, true, "", 0))
  {
    match current
    case Some(st) => st.(offlineStorage := true)
    case None => State(Some([]), Some(Node(activityId, false, false, true, "", 0)), Some([]), Some([]), Some([]), true, 0)
  }

  /** What the save gets as far as: a throw before the POST, or the POST of a document under a state id. */
  datatype SaveAttempt = SaveThrew | SavePosted(stateId: string, body: State)

  /**
   * The save as written: the patched document is assigned to the `const`
   * that holds the base document, so the assignment throws whether or not
   * the patch itself does, and the POST is never reached.
   */
  function SaveStateAsWritten(listed: Option<seq<string>>, current: Option<State>, uuid: string, activityId: string,
                              comps: seq<Component>, now: string): SaveAttempt
  {
    match Patched(BaseState(current, activityId), comps, now)
    case None => SaveThrew
    case Some(_) => SaveThrew
  }

  /** The save as written never posts the state. */
  lemma SaveAsWrittenNeverPosts(listed: Option<seq<string>>, current: Option<State>, uuid: string, activityId: string,
                                comps: seq<Component>, now: string)
    ensures SaveStateAsWritten(listed, current, uuid, activityId, comps, now) == SaveThrew
  {
  }

  /** The save as intended: the patched base document is posted under the chosen state id. */
  function SaveState(listed: Option<seq<string>>, current: Option<State>, uuid: string, activityId: string,
                     comps: seq<Component>, now: string): SaveAttempt
  {
    match Patched(BaseState(current, activityId), comps, now)
    case None => SaveThrew
    case Some(p) => SavePosted(ChooseStateId(listed, uuid), p)
  }

  /**
   * When no component's answer throws, the intended save posts, under an id
   * ending in "_state_data", a document in which every component is held by
   * a completed answer record and the course, if any, is complete.
   */
  lemma SaveStatePosts(listed: Option<seq<string>>, current: Option<State>, uuid: string, activityId: string,
                       comps: seq<Component>, now: string)
    requires comps != [] && forall k :: 0 <= k < |comps| ==> UserAnswer(comps[k]).Some?
    ensures var s := SaveState(listed, current, uuid, activityId, comps, now);
            s.SavePosted? && EndsWith(s.stateId, StateSuffix) && s.body.offlineStorage
            && s.body.components.Some?
            && (forall k :: 0 <= k < |comps| ==>
                  exists j :: 0 <= j < |s.body.components.value|
                              && s.body.components.value[j].id == comps[k].id
                              && Completes(s.body.components.value[j], now))
            && (current.None? ==> s.body.course == Some(Node(activityId, true, true, true, "", 0)))
  {
    var base := BaseState(current, activityId);
    assert Patched(base, comps, now).Some?;
    MergedCompletes(Existing(base), comps, now);
  }
}
