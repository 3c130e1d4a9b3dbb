/**
 * The question pipeline of the content script: the page is scanned for the
 * catalog's components, each found component becomes a typed question, the
 * questions are bound to their answer elements, and the auto-solver walks the
 * question list one step per timer tick.
 *
 * The page is an oracle: `Dom` answers the selector lookups the script makes,
 * and `Page` holds the checked state of the answer inputs, which a click on
 * an input's label toggles.
 */
module ContentScript {
  import opened Wrappers
  import opened JsStrings
  import opened Descriptors
  import opened Classifier
  import ContentHelpers

  /** An element of the page, by identity. */
  type Elem = nat

  /** The answers the page gives to the script's lookups, each within a scope (`null` being `None`). */
  datatype Dom = Dom(
    byClass: string -> Option<Elem>,                     // `.${id}` in the document
    textMatch: (Option<Elem>, string) -> Option<Elem>,   // the element whose text content is the given text
    answerInput: (Option<Elem>, string, nat) -> Option<Elem>,  // `#${id}-${i}-input`
    answerLabel: (Option<Elem>, string, nat) -> Option<Elem>,  // `#${id}-${i}-label`
    matchButtons: (Option<Elem>, nat) -> Option<seq<Elem>>,    // `[data-id="${i}"]`, at most two
    indexed: (Option<Elem>, nat) -> Option<Elem>,        // `[index="${i}"]`
    dropdownItem: (Option<Elem>, nat) -> Option<Elem>,   // `#dropdown__item-index-${k}`
    listenerThrows: (Option<Elem>, QuestionType) -> bool)  // the listener binder of that type throws in that container

  /** One `{ input, label }` pair of a basic question. */
  datatype Binding = Binding(input: Elem, labelElem: Option<Elem>)

  /** A question's `inputs`: not yet set, checkbox pairs, match button groups, or the dropdown option. */
  datatype Inputs =
    | Unbound
    | BasicInputs(bindings: seq<Binding>)
    | MatchInputs(groups: seq<seq<Elem>>)
    | OptionInputs(options: seq<Option<Elem>>)

  /**
   * One entry of `questions`. Entries made by the dropdown binder have no
   * `id`, `answersLength` or `items` (`None`, 0 and empty here).
   */
  datatype Question = Question(
    container: Option<Elem>,
    id: Option<string>,
    answersLength: nat,
    qtype: QuestionType,
    items: seq<Item>,
    element: Option<Elem>,
    inputs: Inputs,
    skip: bool)

  /** The outcome of a run of steps that may throw: what it produced before stopping, and whether it threw. */
  datatype Scan = Scan(found: seq<Question>, threw: bool)

  /** `String(id)`: how a missing question id is written into a selector. */
  function IdText(id: Option<string>): string {
    id.GetOr("undefined")
  }

  // ---------------------------------------------------------------------------
  // Scanning the page for questions

  /** The question `setQuestionSections` records for a component found in the page. */
  function Section(div: Elem, c: Component, t: QuestionType): Question
    requires c.items.Some? && c.items.value != []
  {
    var items := c.items.value;
    Question(Some(div), Some(c.id), |items|, t, items, None, Unbound, false)
  }

  /**
   * A question as the scan records it: with an id and a container, typed by
   * the classifier as written on its first item, not yet bound.
   */
  predicate Fresh(q: Question) {
    q.id.Some? && q.items != [] && ClassifyAsWritten(q.items[0]) == Some(q.qtype)
    && q.answersLength == |q.items| && q.container.Some? && q.inputs == Unbound && !q.skip
  }

  /**
   * What `setQuestionSections` records for the first `n` catalog entries: an
   * entry with no element in the page is passed over; an entry whose
   * `_items` is empty throws when its first item is read, and so does one
   * whose first item makes the classifier as written throw.
   */
  function Sections(cs: seq<Component>, dom: Dom, n: nat): (r: Scan)
    requires n <= |cs|
    ensures |r.found| <= n
    ensures forall q :: q in r.found ==> Fresh(q)
    decreases n
  {
    if n == 0 then Scan([], false)
    else
      var r0 := Sections(cs, dom, n - 1);
      var c := cs[n - 1];
      if r0.threw || dom.byClass(c.id).None? then r0
      else if c.items.None? || c.items.value == [] then Scan(r0.found, true)
      else match ClassifyAsWritten(c.items.value[0])
        case None => Scan(r0.found, true)
        case Some(t) => Scan(r0.found + [Section(dom.byClass(c.id).value, c, t)], false)
  }

  /** Once the scan has thrown, later entries change nothing. */
  lemma {:induction false} SectionsThrowSticks(cs: seq<Component>, dom: Dom, n: nat, m: nat)
    requires n <= m <= |cs|
    requires Sections(cs, dom, n).threw
    ensures Sections(cs, dom, m) == Sections(cs, dom, n)
    decreases m
  {
    if m > n {
      SectionsThrowSticks(cs, dom, n, m - 1);
    }
  }

  /** Each recorded question carries the id of a catalog entry found in the page, in catalog order. */
  lemma {:induction false} SectionsFromCatalog(cs: seq<Component>, dom: Dom, n: nat)
    requires n <= |cs|
    ensures forall q :: q in Sections(cs, dom, n).found ==>
              exists k :: 0 <= k < n && q.id == Some(cs[k].id) && q.container == dom.byClass(cs[k].id)
                          && cs[k].items == Some(q.items)
    decreases n
  {
    if n > 0 {
      SectionsFromCatalog(cs, dom, n - 1);
    }
  }

  /**
   * As written, a component found in the page whose one item holds only an
   * empty `_options` list makes the scan throw, and nothing is recorded.
   */
  lemma ScanThrowsOnEmptyOptions(dom: Dom, c: Component)
    requires dom.byClass(c.id).Some?
    requires c.items == Some([Item(None, "", "", None, "", "", "", OptionList([]), false, "")])
    ensures Sections([c], dom, 1) == Scan([], true)
  {
    AsWrittenThrowsOnEmptyOptions();
  }

  // ---------------------------------------------------------------------------
  // Binding answer elements

  /** Every answer index below `n` has an input in the scope. */
  predicate AllInputs(dom: Dom, scope: Option<Elem>, id: string, n: nat)
    decreases n
  {
    n == 0 || (AllInputs(dom, scope, id, n - 1) && dom.answerInput(scope, id, n - 1).Some?)
  }

  /** The `{ input, label }` pairs of the answer indices below `n`, in index order. */
  function BasicPairs(dom: Dom, scope: Option<Elem>, id: string, n: nat): (r: seq<Binding>)
    requires AllInputs(dom, scope, id, n)
    ensures |r| == n
    decreases n
  {
    if n == 0 then []
    else BasicPairs(dom, scope, id, n - 1) + [Binding(dom.answerInput(scope, id, n - 1).value, dom.answerLabel(scope, id, n - 1))]
  }

  /**
   * What `findAnswerInputsBasic(...) || []` yields: one pair per answer index,
   * in index order, when every index has an input, and nothing otherwise.
   */
  function BasicBinding(dom: Dom, scope: Option<Elem>, id: string, n: nat): (r: seq<Binding>)
    ensures |r| == n || r == []
  {
    if AllInputs(dom, scope, id, n) then BasicPairs(dom, scope, id, n) else []
  }

  /** Every answer index below `n` has a button group in the scope. */
  predicate AllGroups(dom: Dom, scope: Option<Elem>, n: nat)
    decreases n
  {
    n == 0 || (AllGroups(dom, scope, n - 1) && dom.matchButtons(scope, n - 1).Some?)
  }

  /** The button groups of the answer indices below `n`, in index order. */
  function MatchGroups(dom: Dom, scope: Option<Elem>, n: nat): (r: seq<seq<Elem>>)
    requires AllGroups(dom, scope, n)
    ensures |r| == n
    decreases n
  {
    if n == 0 then [] else MatchGroups(dom, scope, n - 1) + [dom.matchButtons(scope, n - 1).value]
  }

  /** What `findAnswerInputsMatch(...) || []` yields: every index's button group in order, or nothing. */
  function MatchBinding(dom: Dom, scope: Option<Elem>, n: nat): (r: seq<seq<Elem>>)
    ensures |r| == n || r == []
  {
    if AllGroups(dom, scope, n) then MatchGroups(dom, scope, n) else []
  }

  lemma {:induction false} AllInputsIff(dom: Dom, scope: Option<Elem>, id: string, n: nat)
    ensures AllInputs(dom, scope, id, n) <==> forall i :: 0 <= i < n ==> dom.answerInput(scope, id, i).Some?
    decreases n
  {
    if n > 0 {
      AllInputsIff(dom, scope, id, n - 1);
    }
  }

  lemma {:induction false} BasicPairsAt(dom: Dom, scope: Option<Elem>, id: string, n: nat)
    requires AllInputs(dom, scope, id, n)
    ensures forall i :: 0 <= i < n ==>
              Some(BasicPairs(dom, scope, id, n)[i].input) == dom.answerInput(scope, id, i)
              && BasicPairs(dom, scope, id, n)[i].labelElem == dom.answerLabel(scope, id, i)
    decreases n
  {
    if n > 0 {
      BasicPairsAt(dom, scope, id, n - 1);
    }
  }

  lemma {:induction false} AllGroupsIff(dom: Dom, scope: Option<Elem>, n: nat)
    ensures AllGroups(dom, scope, n) <==> forall i :: 0 <= i < n ==> dom.matchButtons(scope, i).Some?
    decreases n
  {
    if n > 0 {
      AllGroupsIff(dom, scope, n - 1);
    }
  }

  lemma {:induction false} MatchGroupsAt(dom: Dom, scope: Option<Elem>, n: nat)
    requires AllGroups(dom, scope, n)
    ensures forall i :: 0 <= i < n ==> Some(MatchGroups(dom, scope, n)[i]) == dom.matchButtons(scope, i)
    decreases n
  {
    if n > 0 {
      MatchGroupsAt(dom, scope, n - 1);
    }
  }

  /**
   * The basic binder yields all `n` pairs exactly when every index has an
   * input, each pair holding that index's input and label; otherwise it yields nothing.
   */
  lemma BasicBindingSpec(dom: Dom, scope: Option<Elem>, id: string, n: nat)
    ensures var r := BasicBinding(dom, scope, id, n);
            (|r| == n <==> forall i :: 0 <= i < n ==> dom.answerInput(scope, id, i).Some?)
            && (|r| != n ==> r == [])
            && (|r| == n ==> forall i :: 0 <= i < n ==>
                  r[i].labelElem == dom.answerLabel(scope, id, i) && Some(r[i].input) == dom.answerInput(scope, id, i))
  {
    AllInputsIff(dom, scope, id, n);
    if AllInputs(dom, scope, id, n) {
      BasicPairsAt(dom, scope, id, n);
    }
  }

  /** The match binder yields every index's button group, in order, exactly when each index has one. */
  lemma MatchBindingSpec(dom: Dom, scope: Option<Elem>, n: nat)
    ensures var r := MatchBinding(dom, scope, n);
            (|r| == n <==> forall i :: 0 <= i < n ==> dom.matchButtons(scope, i).Some?)
            && (|r| != n ==> r == [])
            && (|r| == n ==> forall i :: 0 <= i < n ==> Some(r[i]) == dom.matchButtons(scope, i))
  {
    AllGroupsIff(dom, scope, n);
    if AllGroups(dom, scope, n) {
      MatchGroupsAt(dom, scope, n);
    }
  }

  /** A binder returns everything only when every index was found: a single gap empties the result. */
  lemma BindingAllOrNothing(dom: Dom, scope: Option<Elem>, id: string, n: nat, gap: nat)
    requires gap < n
    requires dom.answerInput(scope, id, gap).None?
    ensures BasicBinding(dom, scope, id, n) == []
  {
    AllInputsIff(dom, scope, id, n);
  }

  /** `findAnswerInputsBasic` with its `|| []` fallback. */
  method FindAnswerInputsBasic(dom: Dom, scope: Option<Elem>, id: string, answersLength: nat)
    returns (inputs: seq<Binding>)
    ensures inputs == BasicBinding(dom, scope, id, answersLength)
  {
    inputs := [];
    var i := 0;
    while i < answersLength
      invariant 0 <= i <= answersLength
      invariant |inputs| <= i
      invariant i == 0 || |inputs| < answersLength
      invariant |inputs| == i <==> AllInputs(dom, scope, id, i)
      invariant |inputs| == i ==> inputs == BasicPairs(dom, scope, id, i)
    {
      var input := dom.answerInput(scope, id, i);
      var labelElem := dom.answerLabel(scope, id, i);
      if input.Some? {
        inputs := inputs + [Binding(input.value, labelElem)];
        if |inputs| == answersLength {
          return;
        }
      }
      i := i + 1;
    }
    inputs := [];
  }

  /** `findAnswerInputsMatch` with its `|| []` fallback. */
  method FindAnswerInputsMatch(dom: Dom, scope: Option<Elem>, answersLength: nat) returns (buttons: seq<seq<Elem>>)
    ensures buttons == MatchBinding(dom, scope, answersLength)
  {
    buttons := [];
    var i := 0;
    while i < answersLength
      invariant 0 <= i <= answersLength
      invariant |buttons| <= i
      invariant i == 0 || |buttons| < answersLength
      invariant |buttons| == i <==> AllGroups(dom, scope, i)
      invariant |buttons| == i ==> buttons == MatchGroups(dom, scope, i)
    {
      var group := dom.matchButtons(scope, i);
      if group.Some? {
        buttons := buttons + [group.value];
        if |buttons| == answersLength {
          return;
        }
      }
      i := i + 1;
    }
    buttons := [];
  }

  /** The element of the first catalog entry, in catalog order, whose body text is found in the scope. */
  function FirstTextHit(cs: seq<Component>, dom: Dom, scope: Option<Elem>): (r: Option<Elem>)
    ensures r.Some? ==> exists k :: 0 <= k < |cs| && dom.textMatch(scope, cs[k].body) == r
                                    && forall j :: 0 <= j < k ==> dom.textMatch(scope, cs[j].body).None?
    ensures r.None? ==> forall k :: 0 <= k < |cs| ==> dom.textMatch(scope, cs[k].body).None?
  {
    if cs == [] then None
    else if dom.textMatch(scope, cs[0].body).Some? then dom.textMatch(scope, cs[0].body)
    else
      var r := FirstTextHit(cs[1..], dom, scope);
      assert forall k :: 1 <= k < |cs| ==> cs[1..][k - 1] == cs[k];
      r
  }

  /** `findQuestionElement`: searches the scope for the body text of every catalog entry in turn. */
  method FindQuestionElement(cs: seq<Component>, dom: Dom, scope: Option<Elem>) returns (element: Option<Elem>)
    ensures element == FirstTextHit(cs, dom, scope)
  {
    var i := 0;
    while i < |cs|
      invariant 0 <= i <= |cs|
      invariant FirstTextHit(cs[i..], dom, scope) == FirstTextHit(cs, dom, scope)
    {
      var hit := dom.textMatch(scope, cs[i].body);
      if hit.Some? {
        return hit;
      }
      assert cs[i..][1..] == cs[i + 1..];
      i := i + 1;
    }
    return None;
  }

  /** An entry of the dropdown binder: tagged with `id`, not skipped, and bound to one option element. */
  predicate DropdownShaped(e: Question, id: Option<string>) {
    e.qtype == DropdownSelect && e.id == id && !e.skip && e.inputs.OptionInputs? && |e.inputs.options| == 1
  }

  /** What the dropdown binder does with one item: throw, push nothing, or push one entry. */
  datatype Step = Throws | Passes | Pushes(entry: Question)

  /**
   * The step for item `i` of a dropdownSelect question: an item without
   * `text`, or whose `_options` is not a list, throws; an item without a
   * correct option pushes nothing; any other item pushes its entry.
   */
  function ItemStep(q: Question, dom: Dom, id: Option<string>, i: nat): Step
    requires i < |q.items|
  {
    if q.items[i].text.None? || !q.items[i].options.OptionList? then Throws
    else match DropdownEntry(q, dom, id, i)
      case None => Passes
      case Some(e) => Pushes(e)
  }

  /** The steps of all items, in item order. */
  function ItemSteps(q: Question, dom: Dom, id: Option<string>): seq<Step> {
    seq(|q.items|, i requires 0 <= i < |q.items| => ItemStep(q, dom, id, i))
  }

  /** `ss` lists the steps of the items of `q`. */
  predicate StepsOf(ss: seq<Step>, q: Question, dom: Dom, id: Option<string>) {
    |ss| == |q.items| && forall i {:trigger ItemStep(q, dom, id, i)} :: 0 <= i < |q.items| ==> ss[i] == ItemStep(q, dom, id, i)
  }

  lemma DescribedSteps(q: Question, dom: Dom, id: Option<string>) returns (ss: seq<Step>)
    ensures StepsOf(ss, q, dom, id) && ss == ItemSteps(q, dom, id)
  {
    ss := ItemSteps(q, dom, id);
  }

  /**
   * The outcome of the first `n` steps of the `forEach`: the entries pushed
   * so far, and whether a step threw (which ends the loop).
   */
  function Scanned(ss: seq<Step>, n: nat): (r: Scan)
    requires n <= |ss|
    ensures |r.found| <= n
    decreases n
  {
    if n == 0 then Scan([], false)
    else
      var r0 := Scanned(ss, n - 1);
      if r0.threw then r0
      else match ss[n - 1]
        case Throws => Scan(r0.found, true)
        case Passes => r0
        case Pushes(e) => Scan(r0.found + [e], false)
  }

  /**
   * What the dropdown binder pushes for a dropdownSelect question: one entry
   * per item that has a correct option, tagged with `id`, up to the first
   * item without `text` or whose `_options` is not a list, which throws.
   */
  function DropdownScan(q: Question, dom: Dom, id: Option<string>): Scan {
    Scanned(ItemSteps(q, dom, id), |q.items|)
  }

  /**
   * The entry pushed for item `i`, which has a `text` and listed options:
   * bound to the element of the item's first correct option, and absent
   * when no option is correct.
   */
  function DropdownEntry(q: Question, dom: Dom, id: Option<string>, i: nat): (e: Option<Question>)
    requires i < |q.items| && q.items[i].text.Some? && q.items[i].options.OptionList?
    ensures e.Some? <==> FirstCorrect(q.items[i].options.choices).Some?
    ensures e.Some? ==>
              e.value.qtype == DropdownSelect && e.value.id == id && !e.value.skip
              && e.value.container == dom.indexed(q.container, i)
              && e.value.inputs == OptionInputs([dom.dropdownItem(e.value.container, FirstCorrect(q.items[i].options.choices).value)])
  {
    var div := dom.indexed(q.container, i);
    match FirstCorrect(q.items[i].options.choices)
    case None => None
    case Some(k) =>
      Some(Question(div, id, 0, DropdownSelect, [], dom.textMatch(div, Trim(q.items[i].text.value)),
                    OptionInputs([dom.dropdownItem(div, k)]), false))
  }

  /** `setDropdownSelectQuestions` as written: the entries it pushes carry no question id. */
  function DropdownEntriesAsWritten(q: Question, dom: Dom): Scan {
    DropdownScan(q, dom, None)
  }

  /** The dropdown binder with the question's id carried into each entry it pushes. */
  function DropdownEntries(q: Question, dom: Dom): Scan {
    DropdownScan(q, dom, q.id)
  }

  /** One more step after a run that has not thrown. */
  lemma ScannedNext(ss: seq<Step>, n: nat)
    requires n < |ss| && !Scanned(ss, n).threw
    ensures ss[n].Throws? ==> Scanned(ss, n + 1) == Scan(Scanned(ss, n).found, true)
    ensures ss[n].Passes? ==> Scanned(ss, n + 1) == Scanned(ss, n)
    ensures ss[n].Pushes? ==> Scanned(ss, n + 1) == Scan(Scanned(ss, n).found + [ss[n].entry], false)
  {
  }

  /** Once a step has thrown, later steps change nothing. */
  lemma {:induction false} ScannedThrowSticks(ss: seq<Step>, n: nat, m: nat)
    requires n <= m <= |ss|
    requires Scanned(ss, n).threw
    ensures Scanned(ss, m) == Scanned(ss, n)
    decreases m
  {
    if m > n {
      ScannedThrowSticks(ss, n, m - 1);
    }
  }

  /** Every pushed entry is the entry of some step, so a property of all step entries holds of the result. */
  lemma {:induction false} ScannedFrom(ss: seq<Step>, n: nat, e: Question)
    requires n <= |ss|
    requires e in Scanned(ss, n).found
    ensures exists k :: 0 <= k < n && ss[k] == Pushes(e)
    decreases n
  {
    var r0 := Scanned(ss, n - 1);
    if e in r0.found {
      ScannedFrom(ss, n - 1, e);
    }
  }

  /** When every step pushes, the result holds each step's entry in step order and does not throw. */
  lemma {:induction false} ScannedAll(ss: seq<Step>, n: nat)
    requires n <= |ss|
    requires forall k :: 0 <= k < n ==> ss[k].Pushes?
    ensures !Scanned(ss, n).threw && |Scanned(ss, n).found| == n
    ensures forall k :: 0 <= k < n ==> Scanned(ss, n).found[k] == ss[k].entry
    decreases n
  {
    if n > 0 {
      ScannedAll(ss, n - 1);
      var r0 := Scanned(ss, n - 1);
      assert Scanned(ss, n).found == r0.found + [ss[n - 1].entry];
    }
  }

  /** A run of steps throws exactly when one of its steps throws. */
  lemma {:induction false} ScannedThrewIff(ss: seq<Step>, n: nat)
    requires n <= |ss|
    ensures Scanned(ss, n).threw <==> exists k :: 0 <= k < n && ss[k].Throws?
    decreases n
  {
    if n > 0 {
      ScannedThrewIff(ss, n - 1);
      if Scanned(ss, n - 1).threw {
        var k :| 0 <= k < n - 1 && ss[k].Throws?;
        assert 0 <= k < n && ss[k].Throws?;
      }
    }
  }

  /** The dropdown binder throws exactly when some item has no `text` or does not list its options. */
  lemma DropdownScanThrowsIff(q: Question, dom: Dom, id: Option<string>)
    ensures DropdownScan(q, dom, id).threw <==>
              exists i :: 0 <= i < |q.items| && (q.items[i].text.None? || !q.items[i].options.OptionList?)
  {
    var ss := DescribedSteps(q, dom, id);
    ScannedThrewIff(ss, |q.items|);
    if DropdownScan(q, dom, id).threw {
      var k :| 0 <= k < |q.items| && ss[k].Throws?;
      assert ss[k] == ItemStep(q, dom, id, k);
    } else {
      forall i | 0 <= i < |q.items| ensures q.items[i].text.Some? && q.items[i].options.OptionList? {
        assert ss[i] == ItemStep(q, dom, id, i);
      }
    }
  }

  /** Every entry of the dropdown binder is tagged with `id`, not skipped, and bound to one option element. */
  lemma DropdownEntriesShaped(q: Question, dom: Dom, id: Option<string>, e: Question)
    requires e in DropdownScan(q, dom, id).found
    ensures DropdownShaped(e, id)
  {
    var ss := DescribedSteps(q, dom, id);
    ScannedFrom(ss, |q.items|, e);
    var k :| 0 <= k < |q.items| && ss[k] == Pushes(e);
    assert ss[k] == ItemStep(q, dom, id, k);
  }

  /** Every item has a `text`, lists its options and has a correct one. */
  predicate EveryItemAnswerable(items: seq<Item>) {
    forall i :: 0 <= i < |items| ==>
      items[i].text.Some? && items[i].options.OptionList? && FirstCorrect(items[i].options.choices).Some?
  }

  /**
   * When every item has a correct option, the dropdown binder pushes exactly
   * one entry per item, in item order, each bound to its item's first
   * correct option within the item's `[index]` element.
   */
  lemma DropdownOnePerItem(q: Question, dom: Dom, id: Option<string>)
    requires EveryItemAnswerable(q.items)
    ensures !DropdownScan(q, dom, id).threw && |DropdownScan(q, dom, id).found| == |q.items|
    ensures forall i :: 0 <= i < |q.items| ==> Some(DropdownScan(q, dom, id).found[i]) == DropdownEntry(q, dom, id, i)
  {
    var ss := DescribedSteps(q, dom, id);
    forall k | 0 <= k < |q.items| ensures ss[k].Pushes? && Some(ss[k].entry) == DropdownEntry(q, dom, id, k) {
      assert ss[k] == ItemStep(q, dom, id, k);
    }
    ScannedAll(ss, |q.items|);
  }

  // ---------------------------------------------------------------------------
  // Solving one question

  /** The checked state of an input; an input never seen is unchecked. */
  function Checked(m: map<Elem, bool>, e: Elem): bool {
    e in m && m[e]
  }

  /** The outcome of solving: the checked states afterwards, and `solveQuestion`'s result. */
  datatype Run = Run(checked: map<Elem, bool>, ok: bool)

  /**
   * The basic solver from binding `i` on: each input whose checked state
   * differs from its item's `_shouldBeSelected` has its label clicked, which
   * toggles the input. Reading an item past the component's items, or
   * clicking a missing label, throws and ends the run with `false`.
   */
  function BasicRun(bs: seq<Binding>, items: seq<Item>, m: map<Elem, bool>, i: nat): Run
    requires i <= |bs|
    decreases |bs| - i
  {
    if i == |bs| then Run(m, true)
    else if i >= |items| then Run(m, false)
    else if Checked(m, bs[i].input) == items[i].shouldBeSelected then BasicRun(bs, items, m, i + 1)
    else if bs[i].labelElem.None? then Run(m, false)
    else BasicRun(bs, items, m[bs[i].input := !Checked(m, bs[i].input)], i + 1)
  }

  /** No two bindings share an input element. */
  predicate DistinctInputs(bs: seq<Binding>) {
    forall j, k :: 0 <= j < k < |bs| ==> bs[j].input != bs[k].input
  }

  /** Binding `j` has an item and, if its input must be toggled, a label to click. */
  predicate CanSettle(bs: seq<Binding>, items: seq<Item>, m: map<Elem, bool>, j: nat)
    requires j < |bs|
  {
    j < |items| && (Checked(m, bs[j].input) != items[j].shouldBeSelected ==> bs[j].labelElem.Some?)
  }

  /**
   * With distinct inputs, the basic solver succeeds exactly when every
   * remaining binding has an item and, where a click is needed, a label; on
   * success every remaining input's checked state is its item's
   * `_shouldBeSelected`; and an element that is no remaining input is untouched.
   */
  lemma {:induction false} BasicRunSelects(bs: seq<Binding>, items: seq<Item>, m: map<Elem, bool>, i: nat)
    requires i <= |bs|
    requires DistinctInputs(bs)
    ensures BasicRun(bs, items, m, i).ok <==> forall j :: i <= j < |bs| ==> CanSettle(bs, items, m, j)
    ensures BasicRun(bs, items, m, i).ok && i < |bs| ==> |bs| <= |items|
    ensures BasicRun(bs, items, m, i).ok ==>
              forall j :: i <= j < |bs| ==> Checked(BasicRun(bs, items, m, i).checked, bs[j].input) == items[j].shouldBeSelected
    ensures forall e :: (forall j :: i <= j < |bs| ==> bs[j].input != e) ==>
              Checked(BasicRun(bs, items, m, i).checked, e) == Checked(m, e)
    decreases |bs| - i
  {
    if i < |bs| {
      var input := bs[i].input;
      if i >= |items| || (Checked(m, input) != items[i].shouldBeSelected && bs[i].labelElem.None?) {
        assert !CanSettle(bs, items, m, i);
      } else {
        var m' := if Checked(m, input) == items[i].shouldBeSelected then m else m[input := !Checked(m, input)];
        var r := BasicRun(bs, items, m', i + 1);
        assert BasicRun(bs, items, m, i) == r;
        BasicRunSelects(bs, items, m', i + 1);
        assert CanSettle(bs, items, m, i);
        assert forall j :: i < j < |bs| ==> bs[j].input != input;
        assert forall j :: i < j < |bs| ==> Checked(m', bs[j].input) == Checked(m, bs[j].input);
        assert forall j :: i < j < |bs| ==> CanSettle(bs, items, m', j) == CanSettle(bs, items, m, j);
        assert Checked(r.checked, input) == Checked(m', input) == items[i].shouldBeSelected;

      }
    }
  }

  /** `components.find((c) => c._id === question.id)`: the first catalog entry with the question's id. */
  function FindComponent(cs: seq<Component>, id: Option<string>): (r: Option<Component>)
    ensures r.Some? ==> exists k :: 0 <= k < |cs| && cs[k] == r.value && Some(cs[k].id) == id
                                    && forall j :: 0 <= j < k ==> Some(cs[j].id) != id
    ensures r.None? ==> forall k :: 0 <= k < |cs| ==> Some(cs[k].id) != id
  {
    if cs == [] then None
    else if Some(cs[0].id) == id then Some(cs[0])
    else
      var r := FindComponent(cs[1..], id);
      assert forall k :: 1 <= k < |cs| ==> cs[1..][k - 1] == cs[k];
      r
  }

  /** Every match group has the two buttons the solver clicks. */
  predicate GroupsComplete(groups: seq<seq<Elem>>) {
    forall g :: g in groups ==> |g| >= 2
  }

  /**
   * `solveQuestion`: a skipped question, one whose id names no catalog entry,
   * or one of a type without a solver fails; basic questions run the
   * checkbox solver against the entry's items; match questions fail when a
   * group lacks a button; dropdown questions succeed once bound. A question
   * whose inputs were never set throws and fails.
   */
  function Solve(q: Question, cs: seq<Component>, m: map<Elem, bool>): Run {
    if q.skip then Run(m, false)
    else match FindComponent(cs, q.id)
      case None => Run(m, false)
      case Some(c) =>
        match q.qtype
        case Basic =>
          if q.inputs.BasicInputs? then BasicRun(q.inputs.bindings, c.items.GetOr([]), m, 0) else Run(m, false)
        case Match => Run(m, q.inputs.MatchInputs? && GroupsComplete(q.inputs.groups))
        case DropdownSelect => Run(m, !q.inputs.Unbound?)
        case _ => Run(m, false)
  }

  /** The failing cases of `solveQuestion` change no checkbox. */
  lemma SolveFails(q: Question, cs: seq<Component>, m: map<Elem, bool>)
    requires q.skip || FindComponent(cs, q.id).None? || q.qtype !in {Basic, Match, DropdownSelect}
    ensures Solve(q, cs, m) == Run(m, false)
  {
  }

  /** A bound basic or match question with nothing bound still counts as solved. */
  lemma SolveWithNothingBound(q: Question, cs: seq<Component>, m: map<Elem, bool>)
    requires !q.skip && FindComponent(cs, q.id).Some?
    requires q.inputs == BasicInputs([]) || q.inputs == MatchInputs([])
    requires q.qtype == (if q.inputs.BasicInputs? then Basic else Match)
    ensures Solve(q, cs, m) == Run(m, true)
  {
  }

  /**
   * A solved basic question with distinct inputs leaves every bound input
   * checked exactly when the matching item of its catalog entry should be selected.
   */
  lemma SolvedBasicMatchesKey(q: Question, cs: seq<Component>, m: map<Elem, bool>)
    requires q.qtype == Basic && q.inputs.BasicInputs? && DistinctInputs(q.inputs.bindings)
    requires Solve(q, cs, m).ok
    ensures FindComponent(cs, q.id).Some?
    ensures var items := FindComponent(cs, q.id).value.items.GetOr([]);
            var bs := q.inputs.bindings;
            |bs| <= |items|
            && forall j :: 0 <= j < |bs| ==> Checked(Solve(q, cs, m).checked, bs[j].input) == items[j].shouldBeSelected
  {
    var items := FindComponent(cs, q.id).value.items.GetOr([]);
    var bs := q.inputs.bindings;
    BasicRunSelects(bs, items, m, 0);
    assert Solve(q, cs, m) == BasicRun(bs, items, m, 0);
    if |bs| > 0 {
      assert CanSettle(bs, items, m, |bs| - 1);
    }
  }

  /** The checkbox states of the page. */
  class Page {
    var checked: map<Elem, bool>

    constructor (initial: map<Elem, bool>)
      ensures checked == initial
    {
      checked := initial;
    }
  }

  /** The basic branch of `solveQuestion`: the checkbox loop. */
  method SolveBasic(bs: seq<Binding>, items: seq<Item>, page: Page) returns (ok: bool)
    modifies page
    ensures Run(page.checked, ok) == BasicRun(bs, items, old(page.checked), 0)
  {
    var i := 0;
    while i < |bs|
      invariant 0 <= i <= |bs|
      invariant BasicRun(bs, items, page.checked, i) == BasicRun(bs, items, old(page.checked), 0)
    {
      if i >= |items| {
        return false;
      }
      var b := bs[i];
      var isChecked := b.input in page.checked && page.checked[b.input];
      if items[i].shouldBeSelected != isChecked {
        if b.labelElem.None? {
          return false;
        }
        page.checked := page.checked[b.input := !isChecked];
      }
      i := i + 1;
    }
    return true;
  }

  /** `solveQuestion`, with the page's clicks reduced to their effect on the checkboxes. */
  method SolveQuestion(q: Question, cs: seq<Component>, page: Page) returns (ok: bool)
    modifies page
    ensures Run(page.checked, ok) == Solve(q, cs, old(page.checked))
  {
    if q.skip {
      return false;
    }
    var component := FindComponent(cs, q.id);
    if component.None? {
      return false;
    }
    match q.qtype {
      case Basic =>
        if !q.inputs.BasicInputs? {
          return false;
        }
        ok := SolveBasic(q.inputs.bindings, component.value.items.GetOr([]), page);
      case Match =>
        ok := q.inputs.MatchInputs? && GroupsComplete(q.inputs.groups);
      case DropdownSelect =>
        ok := !q.inputs.Unbound?;
      case _ =>
        ok := false;
    }
  }

  /**
   * As written, the auto-solver never solves an entry pushed by the dropdown
   * binder: the entry has no id, so no catalog entry is found for it, and
   * solving it changes no checkbox.
   */
  lemma DropdownEntriesUnsolvedAsWritten(q: Question, dom: Dom, cs: seq<Component>, m: map<Elem, bool>)
    ensures forall e :: e in DropdownEntriesAsWritten(q, dom).found ==> Solve(e, cs, m) == Run(m, false)
  {
    forall e | e in DropdownEntriesAsWritten(q, dom).found ensures Solve(e, cs, m) == Run(m, false) {
      DropdownEntriesShaped(q, dom, None, e);
    }
  }

  /** A dropdownSelect question whose one item has a correct option yields an entry, so the gap above is reachable. */
  lemma DropdownEntryExists(q: Question, dom: Dom)
    requires |q.items| == 1 && EveryItemAnswerable(q.items)
    ensures |DropdownEntriesAsWritten(q, dom).found| == 1 && |DropdownEntries(q, dom).found| == 1
  {
    DropdownOnePerItem(q, dom, None);
    DropdownOnePerItem(q, dom, q.id);
  }

  /**
   * With the question's id carried into each entry, every entry of a question
   * that has a catalog entry is solved.
   */
  lemma DropdownEntriesSolved(q: Question, dom: Dom, cs: seq<Component>, m: map<Elem, bool>)
    requires FindComponent(cs, q.id).Some?
    ensures forall e :: e in DropdownEntries(q, dom).found ==> Solve(e, cs, m) == Run(m, true)
  {
    forall e | e in DropdownEntries(q, dom).found ensures Solve(e, cs, m) == Run(m, true) {
      DropdownEntriesShaped(q, dom, q.id, e);
    }
  }

  /** A question after `setQuestionElements` has visited it without throwing. */
  function Bound(q: Question, cs: seq<Component>, dom: Dom): (b: Question)
    ensures b.qtype == q.qtype && b.id == q.id && b.items == q.items && b.container == q.container
    ensures b.skip <==> q.skip || q.qtype !in {Basic, Match}
    ensures q.qtype == Basic ==> b.inputs.BasicInputs? && (|b.inputs.bindings| == q.answersLength || b.inputs.bindings == [])
    ensures q.qtype == Match ==> b.inputs.MatchInputs? && (|b.inputs.groups| == q.answersLength || b.inputs.groups == [])
  {
    match q.qtype
    case Basic =>
      q.(element := FirstTextHit(cs, dom, q.container),
         inputs := BasicInputs(BasicBinding(dom, q.container, IdText(q.id), q.answersLength)))
    case Match =>
      q.(element := FirstTextHit(cs, dom, q.container),
         inputs := MatchInputs(MatchBinding(dom, q.container, q.answersLength)))
    case _ => q.(skip := true)
  }

  /** What visiting one question does: the question as bound, the entries it pushes, and whether it throws. */
  datatype Visit = Visit(bound: Question, pushed: seq<Question>, threw: bool)

  /**
   * The visit `setQuestionElements` makes of `q`: a dropdownSelect question
   * runs the dropdown binder as written, whose entries carry no id; the
   * other listener binders throw as the page makes them.
   */
  function VisitOf(q: Question, cs: seq<Component>, dom: Dom): Visit {
    if q.qtype == DropdownSelect then
      var d := DropdownEntriesAsWritten(q, dom);
      Visit(Bound(q, cs, dom), d.found, d.threw)
    else if q.qtype == Basic || q.qtype == Match then Visit(Bound(q, cs, dom), [], false)
    else Visit(Bound(q, cs, dom), [], dom.listenerThrows(q.container, q.qtype))
  }

  /** The visits of every question of `qs`, in order. */
  function Visits(qs: seq<Question>, cs: seq<Component>, dom: Dom): seq<Visit> {
    seq(|qs|, k requires 0 <= k < |qs| => VisitOf(qs[k], cs, dom))
  }

  /** `vs` holds the visit of each question of `qs`. */
  predicate Describes(vs: seq<Visit>, qs: seq<Question>, cs: seq<Component>, dom: Dom) {
    |vs| == |qs| && forall k {:trigger VisitOf(qs[k], cs, dom)} :: 0 <= k < |qs| ==> vs[k] == VisitOf(qs[k], cs, dom)
  }

  /** A list of visits that describes `qs`. */
  lemma DescribedVisits(qs: seq<Question>, cs: seq<Component>, dom: Dom) returns (vs: seq<Visit>)
    ensures Describes(vs, qs, cs, dom)
  {
    vs := Visits(qs, cs, dom);
  }

  /** Any list of visits that describes `qs` yields the pass over `qs`. */
  lemma DescribedPass(vs: seq<Visit>, qs: seq<Question>, cs: seq<Component>, dom: Dom, n: nat)
    requires Describes(vs, qs, cs, dom) && n <= |qs|
    ensures Passed(vs, n) == ElementsPass(qs, cs, dom, n)
  {
    assert vs == Visits(qs, cs, dom);
  }

  /** What `setQuestionElements` has done after visiting the first `n` questions. */
  datatype Pass = Pass(bound: seq<Question>, pushed: seq<Question>, threw: bool)

  /**
   * The first `n` visits in turn: each visited question is bound in place and
   * its entries are pushed; the pass stops at the first visit that throws.
   */
  function Passed(vs: seq<Visit>, n: nat): (p: Pass)
    requires n <= |vs|
    ensures |p.bound| <= n
    ensures !p.threw ==> |p.bound| == n
    decreases n
  {
    if n == 0 then Pass([], [], false)
    else
      var p := Passed(vs, n - 1);
      var v := vs[n - 1];
      if p.threw then p
      else if v.threw then Pass(p.bound, p.pushed + v.pushed, true)
      else Pass(p.bound + [v.bound], p.pushed + v.pushed, false)
  }

  /** `setQuestionElements` over the first `n` questions. */
  function ElementsPass(qs: seq<Question>, cs: seq<Component>, dom: Dom, n: nat): Pass
    requires n <= |qs|
  {
    Passed(Visits(qs, cs, dom), n)
  }

  /** Once a visit has thrown, later visits change nothing. */
  lemma {:induction false} PassedThrowSticks(vs: seq<Visit>, n: nat, m: nat)
    requires n <= m <= |vs|
    requires Passed(vs, n).threw
    ensures Passed(vs, m) == Passed(vs, n)
    decreases m
  {
    if m > n {
      PassedThrowSticks(vs, n, m - 1);
    }
  }

  /** The bound questions are those of the visits, in order; the pushed entries are theirs, concatenated. */
  lemma {:induction false} PassedBound(vs: seq<Visit>, n: nat)
    requires n <= |vs|
    ensures var p := Passed(vs, n);
            forall k :: 0 <= k < |p.bound| ==> p.bound[k] == vs[k].bound
    decreases n
  {
    if n > 0 {
      PassedBound(vs, n - 1);
      var p0 := Passed(vs, n - 1);
      var p := Passed(vs, n);
      forall k | 0 <= k < |p.bound| ensures p.bound[k] == vs[k].bound {
        if k < |p0.bound| {
          assert p.bound[k] == p0.bound[k];
        }
      }
    }
  }

  /** Every entry the pass has pushed was pushed by one of its visits. */
  lemma {:induction false} PassedPushedFrom(vs: seq<Visit>, n: nat, e: Question)
    requires n <= |vs|
    requires e in Passed(vs, n).pushed
    ensures exists k :: 0 <= k < n && e in vs[k].pushed
    decreases n
  {
    var p := Passed(vs, n - 1);
    if e in p.pushed {
      PassedPushedFrom(vs, n - 1, e);
    } else {
      assert e in vs[n - 1].pushed;
    }
  }

  /**
   * As written, no entry that `setQuestionElements` pushes is ever solved:
   * each comes from the dropdown binder and carries no id.
   */
  lemma PushedEntriesUnsolved(qs: seq<Question>, cs: seq<Component>, dom: Dom, n: nat, m: map<Elem, bool>)
    requires n <= |qs|
    ensures forall e :: e in ElementsPass(qs, cs, dom, n).pushed ==> Solve(e, cs, m) == Run(m, false)
  {
    var vs := Visits(qs, cs, dom);
    forall e | e in ElementsPass(qs, cs, dom, n).pushed ensures Solve(e, cs, m) == Run(m, false) {
      PassedPushedFrom(vs, n, e);
      var k :| 0 <= k < n && e in vs[k].pushed;
      assert vs[k] == VisitOf(qs[k], cs, dom);
      DropdownEntriesUnsolvedAsWritten(qs[k], dom, cs, m);
    }
  }

  /** Each question the pass has visited is the question as `Bound` gives it. */
  lemma ElementsPassBound(qs: seq<Question>, cs: seq<Component>, dom: Dom, n: nat)
    requires n <= |qs|
    ensures var p := ElementsPass(qs, cs, dom, n);
            forall k :: 0 <= k < |p.bound| ==> p.bound[k] == Bound(qs[k], cs, dom)
  {
    PassedBound(Visits(qs, cs, dom), n);
  }

  /** When the pass completes, only basic and match questions are left for the auto-solver and the listeners. */
  lemma ElementsPassSkips(qs: seq<Question>, cs: seq<Component>, dom: Dom)
    requires forall k :: 0 <= k < |qs| ==> !qs[k].skip
    requires !ElementsPass(qs, cs, dom, |qs|).threw
    ensures var b := ElementsPass(qs, cs, dom, |qs|).bound;
            |b| == |qs| && forall k :: 0 <= k < |b| ==> (b[k].skip <==> b[k].qtype !in {Basic, Match})
  {
    ElementsPassBound(qs, cs, dom, |qs|);
  }

  // ---------------------------------------------------------------------------
  // The content script's state

  /** What the script reports to the popup as a side effect of a step. */
  datatype Notice =
    | NoNotice
    | NoQuestionsError
    | Started(questionCount: nat)
    | Progress(current: nat, total: nat)
    | Completed(questionCount: nat)
    | Stopped(current: nat, total: nat)

  /** The popup's requests; `NullRequest` is a `null` message, whose `action` cannot be read. */
  datatype Request = GetStatus | StartAutoSolve(speed: Option<int>) | StopAutoSolve | Refresh | OtherAction | NullRequest

  /** The handler's replies; `NullReply` is the `null` returned for an unhandled action. */
  datatype Reply =
    | Status(questionCount: nat, isAutoSolving: bool, currentQuestion: nat)
    | Success(count: Option<nat>)
    | Failure
    | NullReply

  /** The progress reports of the steps that take the index from `start` up to `stop`. */
  function ProgressReports(start: nat, stop: nat, total: nat): (r: seq<Notice>)
    ensures |r| == (if start < stop then stop - start else 0)
    decreases stop
  {
    if stop <= start then [] else ProgressReports(start, stop - 1, total) + [Progress(stop, total)]
  }

  /**
   * The question list around the visit of the question after `done`: the
   * pushed entries join the earlier ones, and the visited question is replaced in place.
   */
  lemma Relayout<T>(done: seq<T>, x: T, y: T, rest: seq<T>, pushed: seq<T>, added: seq<T>)
    ensures done + ([x] + rest) + pushed + added == done + ([x] + rest) + (pushed + added)
    ensures (done + ([x] + rest) + pushed + added)[|done| := y] == done + [y] + rest + (pushed + added)
  {
  }

  /** The `forEach` over the items of a dropdownSelect question: the entries it pushes, and whether it threw. */
  method ScanDropdownItems(q: Question, dom: Dom, id: Option<string>) returns (found: seq<Question>, threw: bool)
    ensures Scan(found, threw) == DropdownScan(q, dom, id)
  {
    ghost var ss := DescribedSteps(q, dom, id);
    found, threw := [], false;
    var i := 0;
    while i < |q.items|
      invariant 0 <= i <= |q.items|
      invariant Scan(found, false) == Scanned(ss, i)
    {
      var step := VisitItem(q, dom, id, i);
      assert ss[i] == step;
      ScannedNext(ss, i);
      match step {
        case Throws =>
          threw := true;
          ScannedThrowSticks(ss, i + 1, |q.items|);
          return;
        case Passes =>
        case Pushes(e) =>
          found := found + [e];
      }
      i := i + 1;
    }
  }

  /** One round of the `forEach` of the dropdown binder: the step taken for item `i`. */
  method VisitItem(q: Question, dom: Dom, id: Option<string>, i: nat) returns (step: Step)
    requires i < |q.items|
    ensures step == ItemStep(q, dom, id, i)
  {
    var item := q.items[i];
    var div := dom.indexed(q.container, i);
    if item.text.None? {
      return Throws;
    }
    var element := dom.textMatch(div, Trim(item.text.value));
    if !item.options.OptionList? {
      return Throws;
    }
    var k := FindCorrect(item.options.choices);
    if k.None? {
      return Passes;
    }
    return Pushes(Question(div, id, 0, DropdownSelect, [], element, OptionInputs([dom.dropdownItem(div, k.value)]), false));
  }

  /** The `entries()` loop of the dropdown binder: the index of the first option whose `_isCorrect` is truthy. */
  method FindCorrect(choices: seq<Choice>) returns (k: Option<nat>)
    ensures k == FirstCorrect(choices)
  {
    var j := 0;
    while j < |choices|
      invariant 0 <= j <= |choices|
      invariant forall t :: 0 <= t < j ==> !Correct(choices[t])
    {
      if Correct(choices[j]) {
        assert FirstCorrect(choices).Some? ==> FirstCorrect(choices).value >= j;
        return Some(j);
      }
      j := j + 1;
    }
    return None;
  }

  /** The module-level question list, generation counter and auto-solver state of the content script. */
  class ContentState {
    var questions: seq<Question>
    var iteration: nat
    var isAutoSolving: bool
    var autoSolveIndex: nat
    var autoSolveSpeed: int

    constructor ()
      ensures questions == [] && iteration == 0
      ensures !isAutoSolving && autoSolveIndex == 0 && autoSolveSpeed == 1000
    {
      questions := [];
      iteration := 0;
      isAutoSolving := false;
      autoSolveIndex := 0;
      autoSolveSpeed := 1000;
    }

    /** A listener installed during generation `captured` still acts. */
    predicate Live(captured: nat)
      reads this
    {
      captured == iteration
    }

    /** The start of `main`: the question list is emptied and a new generation begins. */
    method BeginScan()
      modifies this
      ensures questions == [] && iteration == old(iteration) + 1
      ensures !Live(old(iteration))
      ensures Live(iteration)
      ensures isAutoSolving == old(isAutoSolving) && autoSolveIndex == old(autoSolveIndex)
      ensures autoSolveSpeed == old(autoSolveSpeed)
    {
      questions := [];
      iteration := iteration + 1;
    }

    /**
     * One pass of `setQuestionSections`: a question is pushed for each
     * catalog entry found in the page; `anyFound` is `isAtLeaseOneSet`.
     */
    method SetQuestionSections(cs: seq<Component>, dom: Dom) returns (anyFound: bool, threw: bool)
      modifies this
      ensures questions == old(questions) + Sections(cs, dom, |cs|).found
      ensures threw == Sections(cs, dom, |cs|).threw
      ensures anyFound <==> exists k :: 0 <= k < |cs| && dom.byClass(cs[k].id).Some?
      ensures !anyFound ==> questions == old(questions) && !threw
      ensures iteration == old(iteration) && isAutoSolving == old(isAutoSolving)
      ensures autoSolveIndex == old(autoSolveIndex) && autoSolveSpeed == old(autoSolveSpeed)
    {
      anyFound, threw := false, false;
      var i := 0;
      while i < |cs|
        invariant 0 <= i <= |cs|
        invariant !Sections(cs, dom, i).threw
        invariant questions == old(questions) + Sections(cs, dom, i).found
        invariant anyFound <==> exists k :: 0 <= k < i && dom.byClass(cs[k].id).Some?
        invariant !anyFound ==> questions == old(questions)
        invariant iteration == old(iteration) && isAutoSolving == old(isAutoSolving)
        invariant autoSolveIndex == old(autoSolveIndex) && autoSolveSpeed == old(autoSolveSpeed)
      {
        var c := cs[i];
        var div := dom.byClass(c.id);
        if div.Some? {
          anyFound := true;
          if c.items.None? || c.items.value == [] {
            threw := true;
            SectionsThrowSticks(cs, dom, i + 1, |cs|);
            return;
          }
          var t := ClassifyAsWritten(c.items.value[0]);
          if t.None? {
            threw := true;
            SectionsThrowSticks(cs, dom, i + 1, |cs|);
            return;
          }
          questions := questions + [Section(div.value, c, t.value)];
        }
        i := i + 1;
      }
    }

    /**
     * `setDropdownSelectQuestions`: its entries carry no question id. They are
     * pushed in item order and nothing reads the list meanwhile, so they are
     * appended once the items have been scanned.
     */
    method SetDropdownSelectQuestions(q: Question, dom: Dom) returns (threw: bool)
      modifies this
      ensures questions == old(questions) + DropdownEntriesAsWritten(q, dom).found
      ensures threw == DropdownEntriesAsWritten(q, dom).threw
      ensures iteration == old(iteration) && isAutoSolving == old(isAutoSolving)
      ensures autoSolveIndex == old(autoSolveIndex) && autoSolveSpeed == old(autoSolveSpeed)
    {
      var found;
      found, threw := ScanDropdownItems(q, dom, None);
      questions := questions + found;
    }

    /** One visit of `setQuestionElements`: the question as bound, and the dropdown entries pushed for it. */
    method VisitQuestion(q: Question, cs: seq<Component>, dom: Dom) returns (b: Question, threw: bool)
      modifies this
      ensures var v := VisitOf(q, cs, dom);
              questions == old(questions) + v.pushed && threw == v.threw && (!threw ==> b == v.bound)
      ensures iteration == old(iteration) && isAutoSolving == old(isAutoSolving)
      ensures autoSolveIndex == old(autoSolveIndex) && autoSolveSpeed == old(autoSolveSpeed)
    {
      threw := false;
      match q.qtype {
        case Basic =>
          var element := FindQuestionElement(cs, dom, q.container);
          var inputs := FindAnswerInputsBasic(dom, q.container, IdText(q.id), q.answersLength);
          b := q.(element := element, inputs := BasicInputs(inputs));
        case Match =>
          var element := FindQuestionElement(cs, dom, q.container);
          var buttons := FindAnswerInputsMatch(dom, q.container, q.answersLength);
          b := q.(element := element, inputs := MatchInputs(buttons));
        case DropdownSelect =>
          threw := SetDropdownSelectQuestions(q, dom);
          b := q.(skip := true);
        case _ =>
          threw := dom.listenerThrows(q.container, q.qtype);
          b := q.(skip := true);
      }
    }

    /** The visit of question `i` within `setQuestionElements`, with the pass's bookkeeping. */
    method BindAt(ghost qs: seq<Question>, ghost vs: seq<Visit>, cs: seq<Component>, dom: Dom, i: nat)
      returns (threw: bool)
      requires Describes(vs, qs, cs, dom)
      requires i < |qs| && !Passed(vs, i).threw
      requires questions == Passed(vs, i).bound + qs[i..] + Passed(vs, i).pushed
      modifies this
      ensures var p := Passed(vs, i + 1);
              threw == p.threw && questions == p.bound + qs[|p.bound|..] + p.pushed
      ensures iteration == old(iteration) && isAutoSolving == old(isAutoSolving)
      ensures autoSolveIndex == old(autoSolveIndex) && autoSolveSpeed == old(autoSolveSpeed)
    {
      ghost var p := Passed(vs, i);
      assert qs[i..] == [qs[i]] + qs[i + 1..];
      assert questions[i] == qs[i];
      var q := questions[i];
      var b;
      b, threw := VisitQuestion(q, cs, dom);
      assert vs[i] == VisitOf(q, cs, dom);
      Relayout(p.bound, q, b, qs[i + 1..], p.pushed, vs[i].pushed);
      if !threw {
        questions := questions[i := b];
      }
    }

    /**
     * `setQuestionElements`: the questions present when the pass starts are
     * bound in place, and the dropdown entries are pushed after all of them.
     * When the dropdown binder throws, the questions from that one on are left as they were.
     */
    method SetQuestionElements(cs: seq<Component>, dom: Dom) returns (threw: bool)
      modifies this
      ensures var p := ElementsPass(old(questions), cs, dom, |old(questions)|);
              threw == p.threw && questions == p.bound + old(questions)[|p.bound|..] + p.pushed
      ensures iteration == old(iteration) && isAutoSolving == old(isAutoSolving)
      ensures autoSolveIndex == old(autoSolveIndex) && autoSolveSpeed == old(autoSolveSpeed)
    {
      ghost var qs := questions;
      ghost var vs := DescribedVisits(qs, cs, dom);
      var n := |questions|;
      threw := false;
      var i := 0;
      while i < n
        invariant 0 <= i <= n == |qs| == |vs|
        invariant Describes(vs, qs, cs, dom)
        invariant !Passed(vs, i).threw
        invariant questions == Passed(vs, i).bound + qs[i..] + Passed(vs, i).pushed
        invariant iteration == old(iteration) && isAutoSolving == old(isAutoSolving)
        invariant autoSolveIndex == old(autoSolveIndex) && autoSolveSpeed == old(autoSolveSpeed)
      {
        threw := BindAt(qs, vs, cs, dom, i);
        if threw {
          PassedThrowSticks(vs, i + 1, n);
          DescribedPass(vs, qs, cs, dom, n);
          return;
        }
        i := i + 1;
      }
      DescribedPass(vs, qs, cs, dom, n);
    }

    /**
     * `main` without its timers: a new generation, one scan of the page, and
     * the binding pass when the scan found a question and did not throw.
     * `ready` is false when the scan would be retried; `threw` tells that
     * `main` rejected, in the scan or in the pass.
     */
    method RunMain(cs: seq<Component>, dom: Dom) returns (ready: bool, threw: bool)
      modifies this
      ensures iteration == old(iteration) + 1
      ensures ready <==> exists k :: 0 <= k < |cs| && dom.byClass(cs[k].id).Some?
      ensures !ready ==> questions == [] && !threw
      ensures ready ==>
                var s := Sections(cs, dom, |cs|);
                var p := ElementsPass(s.found, cs, dom, |s.found|);
                (s.threw ==> threw && questions == s.found)
                && (!s.threw ==> threw == p.threw && questions == p.bound + s.found[|p.bound|..] + p.pushed)
      ensures isAutoSolving == old(isAutoSolving) && autoSolveIndex == old(autoSolveIndex)
      ensures autoSolveSpeed == old(autoSolveSpeed)
    {
      BeginScan();
      ready, threw := SetQuestionSections(cs, dom);
      assert questions == Sections(cs, dom, |cs|).found;
      if ready && !threw {
        threw := SetQuestionElements(cs, dom);
      }
    }

    /** `startAutoSolve`: refuses an empty question list, otherwise (re)starts from the first question. */
    method Start() returns (notice: Notice)
      modifies this
      ensures |questions| == 0 ==> notice == NoQuestionsError && isAutoSolving == old(isAutoSolving)
                                   && autoSolveIndex == old(autoSolveIndex)
      ensures |questions| > 0 ==> notice == Started(|questions|) && isAutoSolving && autoSolveIndex == 0
      ensures questions == old(questions) && iteration == old(iteration) && autoSolveSpeed == old(autoSolveSpeed)
    {
      if |questions| == 0 {
        return NoQuestionsError;
      }
      isAutoSolving := true;
      autoSolveIndex := 0;
      notice := Started(|questions|);
    }

    /**
     * One `autoSolveNext` step: past the end of the list while running, the
     * run completes; when not running nothing happens; otherwise the current
     * question is solved and the index advances by one whatever the outcome.
     * `again` says whether the next step is scheduled.
     */
    method Next(cs: seq<Component>, page: Page) returns (notice: Notice, solved: bool, again: bool)
      modifies this, page
      ensures old(isAutoSolving) && old(autoSolveIndex) < |questions| ==>
                autoSolveIndex == old(autoSolveIndex) + 1 && isAutoSolving && again
                && notice == Progress(autoSolveIndex, |questions|)
                && Run(page.checked, solved) == Solve(questions[old(autoSolveIndex)], cs, old(page.checked))
      ensures !(old(isAutoSolving) && old(autoSolveIndex) < |questions|) ==>
                autoSolveIndex == old(autoSolveIndex) && !isAutoSolving && !again && !solved
                && page.checked == old(page.checked)
                && notice == (if old(isAutoSolving) then Completed(|questions|) else NoNotice)
      ensures questions == old(questions) && iteration == old(iteration) && autoSolveSpeed == old(autoSolveSpeed)
    {
      if !isAutoSolving || autoSolveIndex >= |questions| {
        notice := NoNotice;
        if autoSolveIndex >= |questions| && isAutoSolving {
          isAutoSolving := false;
          notice := Completed(|questions|);
        }
        return notice, false, false;
      }
      var question := questions[autoSolveIndex];
      solved := SolveQuestion(question, cs, page);
      autoSolveIndex := autoSolveIndex + 1;
      notice := Progress(autoSolveIndex, |questions|);
      again := isAutoSolving;
    }

    /** `stopAutoSolve`: the run ends and the position reached is reported. */
    method Stop() returns (notice: Notice)
      modifies this
      ensures !isAutoSolving && notice == Stopped(autoSolveIndex, |questions|)
      ensures autoSolveIndex == old(autoSolveIndex) && questions == old(questions)
      ensures iteration == old(iteration) && autoSolveSpeed == old(autoSolveSpeed)
    {
      isAutoSolving := false;
      notice := Stopped(autoSolveIndex, |questions|);
    }

    /**
     * The chain of `autoSolveNext` timer callbacks run back to back from a
     * running state: one progress report per remaining question, then the
     * completion report, and the run ends past the last question.
     */
    method RunToEnd(cs: seq<Component>, page: Page) returns (notices: seq<Notice>)
      requires isAutoSolving
      modifies this, page
      ensures !isAutoSolving
      ensures autoSolveIndex == (if old(autoSolveIndex) < |questions| then |questions| else old(autoSolveIndex))
      ensures notices == ProgressReports(old(autoSolveIndex), |questions|, |questions|) + [Completed(|questions|)]
      ensures questions == old(questions) && iteration == old(iteration) && autoSolveSpeed == old(autoSolveSpeed)
    {
      notices := [];
      var again := true;
      while again
        invariant again <==> isAutoSolving
        invariant questions == old(questions) && iteration == old(iteration) && autoSolveSpeed == old(autoSolveSpeed)
        invariant old(autoSolveIndex) >= |questions| && isAutoSolving ==> autoSolveIndex == old(autoSolveIndex) && notices == []
        invariant old(autoSolveIndex) < |questions| && isAutoSolving ==>
                    old(autoSolveIndex) <= autoSolveIndex <= |questions|
                    && notices == ProgressReports(old(autoSolveIndex), autoSolveIndex, |questions|)
        invariant !isAutoSolving ==>
                    autoSolveIndex == (if old(autoSolveIndex) < |questions| then |questions| else old(autoSolveIndex))
                    && notices == ProgressReports(old(autoSolveIndex), |questions|, |questions|) + [Completed(|questions|)]
        decreases isAutoSolving, |questions| - autoSolveIndex
      {
        var notice, solved;
        notice, solved, again := Next(cs, page);
        notices := notices + [notice];
      }
    }

    /**
     * The popup message handler: status, start with an optional speed, stop,
     * refresh, `null` for any other action, and `{ success: false }` when the
     * request itself throws.
     */
    method HandleMessage(req: Request) returns (reply: Reply, notice: Notice)
      modifies this
      ensures req.GetStatus? ==> reply == Status(|questions|, isAutoSolving, autoSolveIndex) && notice == NoNotice
      ensures req.StartAutoSolve? ==>
                autoSolveSpeed == (if req.speed.Some? then ContentHelpers.DelayFor(req.speed.value) else old(autoSolveSpeed))
                && reply == Success(Some(|questions|))
                && (|questions| > 0 ==> isAutoSolving && autoSolveIndex == 0 && notice == Started(|questions|))
                && (|questions| == 0 ==> isAutoSolving == old(isAutoSolving) && notice == NoQuestionsError)
      ensures req.StopAutoSolve? ==> reply == Success(None) && !isAutoSolving && notice == Stopped(autoSolveIndex, |questions|)
      ensures req.Refresh? ==> reply == Success(Some(|questions|)) && notice == NoNotice
      ensures req.OtherAction? ==> reply == NullReply && notice == NoNotice
      ensures req.NullRequest? ==> reply == Failure && notice == NoNotice
      ensures !req.StartAutoSolve? && !req.StopAutoSolve? ==>
                isAutoSolving == old(isAutoSolving) && autoSolveIndex == old(autoSolveIndex)
                && autoSolveSpeed == old(autoSolveSpeed)
      ensures !req.StartAutoSolve? ==> autoSolveSpeed == old(autoSolveSpeed)
      ensures questions == old(questions) && iteration == old(iteration)
    {
      notice := NoNotice;
      match req {
        case GetStatus =>
          reply := Status(|questions|, isAutoSolving, autoSolveIndex);
        case StartAutoSolve(speed) =>
          autoSolveSpeed := ContentHelpers.DelayAfter(autoSolveSpeed, speed);
          notice := Start();
          reply := Success(Some(|questions|));
        case StopAutoSolve =>
          notice := Stop();
          reply := Success(None);
        case Refresh =>
          reply := Success(Some(|questions|));
        case OtherAction =>
          reply := NullReply;
        case NullRequest =>
          reply := Failure;
      }
    }
  }
}
