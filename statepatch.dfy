/**
 * `patchStateWithAnswers` of the API solver: the xAPI course-state document
 * rewritten so that every quiz component carries an answer record with all
 * completion flags set, and every course, article, block and content object
 * is marked complete.
 */
module StatePatch {
  import opened Wrappers
  import opened Descriptors

  /** One `[[score, maxScore], flags, [answer]]` entry of `_attemptStates`. */
  datatype Attempt = Attempt(score: int, maxScore: int, flags: seq<bool>, answers: seq<seq<bool>>)

  /**
   * One record of `stateData.components`: a record the patch did not write
   * (its other fields abstracted by `rest`), or an answer record.
   */
  datatype Record =
    | Kept(id: string, rest: nat)
    | Answered(id: string, isComplete: bool, isInteractionComplete: bool, isInprogress: bool,
               userAnswer: seq<bool>, attemptStates: seq<Attempt>, isSubmitted: bool, score: int,
               isCorrect: bool, attemptsLeft: int, attemptsSpent: int, timestamp: string)

  /**
   * The course record, or one entry of `articles`, `blocks` or
   * `contentObjects`: its `_id`, the three completion flags and `timestamp`
   * (the empty string when falsy); its other fields are abstracted by `rest`.
   */
  datatype Node = Node(id: string, isComplete: bool, isInteractionComplete: bool, isInprogress: bool,
                       timestamp: string, rest: nat)

  /**
   * The state document. A list field is `None` when it is absent or not an
   * array, `course` is `None` when falsy, `offlineStorage` says whether that
   * field is truthy, and `rest` abstracts every other field.
   */
  datatype State = State(components: Option<seq<Record>>, course: Option<Node>, articles: Option<seq<Node>>,
                         blocks: Option<seq<Node>>, contentObjects: Option<seq<Node>>,
                         offlineStorage: bool, rest: nat)

  // ---------------------------------------------------------------------------
  // The id-keyed `Map` of component records, as an insertion-ordered list
  // ---------------------------------------------------------------------------

  /** The position of the first record with `_id` equal to `id`. */
  function IdIndex(m: seq<Record>, id: string): (r: Option<nat>)
    ensures r.Some? ==> r.value < |m| && m[r.value].id == id
    ensures r.Some? ==> forall j :: 0 <= j < r.value ==> m[j].id != id
    ensures r.None? ==> forall j :: 0 <= j < |m| ==> m[j].id != id
  {
    if m == [] then None
    else if m[0].id == id then Some(0)
    else match IdIndex(m[1..], id)
      case None => None
      case Some(k) => Some(k + 1)
  }

  /** The first position holding `id` is determined by the list. */
  lemma IdIndexIs(m: seq<Record>, id: string, k: nat)
    requires k < |m| && m[k].id == id && forall j :: 0 <= j < k ==> m[j].id != id
    ensures IdIndex(m, id) == Some(k)
  {
  }

  /** Extending a list leaves the first position of an id it already holds where it was. */
  lemma IdIndexPrefix(rs: seq<Record>, id: string)
    requires rs != [] && IdIndex(rs[..|rs| - 1], id).Some?
    ensures IdIndex(rs, id) == IdIndex(rs[..|rs| - 1], id)
  {
    assert forall j :: 0 <= j < |rs| - 1 ==> rs[j] == rs[..|rs| - 1][j];
    IdIndexIs(rs, id, IdIndex(rs[..|rs| - 1], id).value);
  }

  /** The first position of an id first met in the last record is the last position. */
  lemma IdIndexLast(rs: seq<Record>)
    requires rs != [] && IdIndex(rs[..|rs| - 1], rs[|rs| - 1].id).None?
    ensures IdIndex(rs, rs[|rs| - 1].id) == Some(|rs| - 1)
  {
    assert forall j :: 0 <= j < |rs| - 1 ==> rs[j] == rs[..|rs| - 1][j];
    IdIndexIs(rs, rs[|rs| - 1].id, |rs| - 1);
  }

  /** No two records share an `_id`: the keys of a `Map`. */
  predicate UniqueIds(m: seq<Record>) {
    forall i, j :: 0 <= i < j < |m| ==> m[i].id != m[j].id
  }

  /** `map.set(r._id, r)`: a held id keeps its position and takes the new record; a new id goes last. */
  function Put(m: seq<Record>, r: Record): seq<Record> {
    match IdIndex(m, r.id)
    case Some(i) => m[i := r]
    case None => m + [r]
  }

  /** The records of `rs` set one after another, first one first. */
  function PutAll(m: seq<Record>, rs: seq<Record>): seq<Record>
    decreases |rs|
  {
    if rs == [] then m else Put(PutAll(m, rs[..|rs| - 1]), rs[|rs| - 1])
  }

  /** The last record of `rs` with `_id` equal to `id`: the value a `Map` keeps for that key. */
  function LastWith(rs: seq<Record>, id: string): (r: Option<Record>)
    ensures r.Some? ==> r.value in rs && r.value.id == id
    ensures r.None? ==> forall j :: 0 <= j < |rs| ==> rs[j].id != id
    decreases |rs|
  {
    if rs == [] then None
    else if rs[|rs| - 1].id == id then Some(rs[|rs| - 1])
    else LastWith(rs[..|rs| - 1], id)
  }

  /** Setting a record into a map with distinct keys keeps the keys distinct. */
  lemma PutUnique(m: seq<Record>, r: Record)
    requires UniqueIds(m)
    ensures UniqueIds(Put(m, r))
  {
    if IdIndex(m, r.id).None? {
      var m' := m + [r];
      forall i, j | 0 <= i < j < |m'| ensures m'[i].id != m'[j].id {
        if j < |m| {
          assert m'[i] == m[i] && m'[j] == m[j];
        }
      }
    }
  }

  lemma {:induction false} PutAllUnique(m: seq<Record>, rs: seq<Record>)
    requires UniqueIds(m)
    ensures UniqueIds(PutAll(m, rs))
    decreases |rs|
  {
    if rs != [] {
      PutAllUnique(m, rs[..|rs| - 1]);
      PutUnique(PutAll(m, rs[..|rs| - 1]), rs[|rs| - 1]);
    }
  }

  /**
   * Records already in the map keep their positions: each holds the last
   * record set for its id, or stays as it was when none was.
   */
  lemma {:induction false} PutAllKeeps(m: seq<Record>, rs: seq<Record>)
    requires UniqueIds(m)
    ensures |m| <= |PutAll(m, rs)|
    ensures forall i :: 0 <= i < |m| ==> PutAll(m, rs)[i] == LastWith(rs, m[i].id).GetOr(m[i])
    decreases |rs|
  {
    if rs != [] {
      var init, r := rs[..|rs| - 1], rs[|rs| - 1];
      PutAllKeeps(m, init);
      var p := PutAll(m, init);
      PutAllUnique(m, init);
      forall i | 0 <= i < |m| ensures Put(p, r)[i] == LastWith(rs, m[i].id).GetOr(m[i]) {
        assert p[i].id == m[i].id;
        if r.id == m[i].id {
          IdIndexIs(p, r.id, i);
        }
      }
    }
  }

  /** Every id that was set is held afterwards. */
  lemma {:induction false} PutAllHolds(m: seq<Record>, rs: seq<Record>)
    ensures forall j :: 0 <= j < |rs| ==> IdIndex(PutAll(m, rs), rs[j].id).Some?
    decreases |rs|
  {
    if rs != [] {
      var init, r := rs[..|rs| - 1], rs[|rs| - 1];
      PutAllHolds(m, init);
      var p := PutAll(m, init);
      var p' := Put(p, r);
      forall j | 0 <= j < |rs| ensures IdIndex(p', rs[j].id).Some? {
        if j < |rs| - 1 {
          assert rs[j] == init[j];
          var x := IdIndex(p, init[j].id).value;
          assert p'[x].id == p[x].id;
        } else if IdIndex(p, r.id).None? {
          assert p'[|p|] == r;
        } else {
          assert p'[IdIndex(p, r.id).value] == r;
        }
      }
    }
  }

  /**
   * Records past the old ones carry ids the map did not hold, each the last
   * record set for its id.
   */
  lemma {:induction false} PutAllNew(m: seq<Record>, rs: seq<Record>)
    requires UniqueIds(m)
    ensures var p := PutAll(m, rs);
            forall k :: |m| <= k < |p| ==>
              IdIndex(m, p[k].id).None? && IdIndex(rs, p[k].id).Some? && LastWith(rs, p[k].id) == Some(p[k])
    decreases |rs|
  {
    if rs != [] {
      var init, r := rs[..|rs| - 1], rs[|rs| - 1];
      PutAllNew(m, init);
      PutAllKeeps(m, init);
      PutAllUnique(m, init);
      var p := PutAll(m, init);
      var p' := Put(p, r);
      forall k | |m| <= k < |p'|
        ensures IdIndex(m, p'[k].id).None? && IdIndex(rs, p'[k].id).Some? && LastWith(rs, p'[k].id) == Some(p'[k])
      {
        if k == |p| {
          assert p'[k] == r;
          forall j | 0 <= j < |m| ensures m[j].id != r.id {
            assert p[j].id == m[j].id;
          }
        } else if p'[k].id == r.id {
          IdIndexIs(p, r.id, k);
        } else {
          assert p'[k] == p[k];
          IdIndexPrefix(rs, p[k].id);
        }
      }
    }
  }

  /** The records past the old ones come in the order their ids first occur in `rs`. */
  lemma {:induction false} PutAllOrder(m: seq<Record>, rs: seq<Record>)
    requires UniqueIds(m)
    ensures var p := PutAll(m, rs);
            forall k, l :: |m| <= k < l < |p| ==>
              IdIndex(rs, p[k].id).Some? && IdIndex(rs, p[l].id).Some? && IdIndex(rs, p[k].id).value < IdIndex(rs, p[l].id).value
    decreases |rs|
  {
    if rs != [] {
      var init, r := rs[..|rs| - 1], rs[|rs| - 1];
      PutAllOrder(m, init);
      PutAllNew(m, init);
      PutAllKeeps(m, init);
      var p := PutAll(m, init);
      var p' := Put(p, r);
      forall k | |m| <= k < |p| ensures IdIndex(rs, p[k].id) == IdIndex(init, p[k].id) {
        IdIndexPrefix(rs, p[k].id);
      }
      if IdIndex(p, r.id).None? {
        PutAllHolds(m, init);
        IdIndexLast(rs);
        assert p' == p + [r];
      } else {
        assert |p'| == |p|;
        assert forall k :: 0 <= k < |p| ==> p'[k].id == p[k].id;
      }
    }
  }

  /** Setting records with distinct ids into an empty map lists them as they came. */
  lemma {:induction false} PutAllOntoEmpty(rs: seq<Record>)
    requires UniqueIds(rs)
    ensures PutAll([], rs) == rs
    decreases |rs|
  {
    if rs != [] {
      var init := rs[..|rs| - 1];
      assert UniqueIds(init);
      PutAllOntoEmpty(init);
      assert IdIndex(init, rs[|rs| - 1].id).None?;
      assert init + [rs[|rs| - 1]] == rs;
    }
  }

  // ---------------------------------------------------------------------------
  // `_userAnswer`
  // ---------------------------------------------------------------------------

  /** The answer of the fallback paths. */
  const FourFalse: seq<bool> := [false, false, false, false]

  /** `comp._items.map((item) => !!item._shouldBeSelected)`. */
  function Selections(items: seq<Item>): seq<bool> {
    seq(|items|, i requires 0 <= i < |items| => items[i].shouldBeSelected)
  }

  /** The indices of the correct entries of one `_options` list, in list order. */
  function CorrectOf(cs: seq<Choice>): seq<nat>
    decreases |cs|
  {
    if cs == [] then []
    else CorrectOf(cs[..|cs| - 1]) + (if Correct(cs[|cs| - 1]) then [|cs| - 1] else [])
  }

  /**
   * `correctIndices` of the options path: the correct indices of every
   * item's list, item after item; `None` when an item's `_options` is a
   * record, whose missing `forEach` throws.
   */
  function CorrectIndices(items: seq<Item>): Option<seq<nat>>
    decreases |items|
  {
    if items == [] then Some([])
    else match CorrectIndices(items[..|items| - 1])
      case None => None
      case Some(ci) =>
        match items[|items| - 1].options
        case NoOptions => Some(ci)
        case OptionRecord(_) => None
        case OptionList(cs) => Some(ci + CorrectOf(cs))
  }

  /** Option `k` of item `i` is listed and correct. */
  predicate CorrectAt(items: seq<Item>, i: int, k: int) {
    0 <= i < |items| && items[i].options.OptionList? && 0 <= k < |items[i].options.choices|
    && Correct(items[i].options.choices[k])
  }

  /** `comp._items[0]._options?.length || 4`. */
  function OptionCount(i: Item): nat {
    if i.options.OptionList? && |i.options.choices| > 0 then |i.options.choices| else 4
  }

  /** `Array(n).fill(false).map((_, idx) => correctIndices.includes(idx))`. */
  function Marks(n: nat, ci: seq<nat>): seq<bool> {
    seq(n, idx requires 0 <= idx < n => idx in ci)
  }

  /** The options path is taken: not an mcq with items, and the first item's `_options` is truthy. */
  predicate OnOptionsPath(c: Component) {
    !(c.kind == "mcq" && c.items.Some?) && c.items.Some? && |c.items.value| > 0
    && !c.items.value[0].options.NoOptions?
  }

  /** The `_userAnswer` written for a component; `None` when computing it throws. */
  function UserAnswer(c: Component): Option<seq<bool>> {
    if c.kind == "mcq" && c.items.Some? then Some(Selections(c.items.value))
    else if OnOptionsPath(c) then
      match CorrectIndices(c.items.value)
      case None => None
      case Some(ci) => if |ci| > 0 then Some(Marks(OptionCount(c.items.value[0]), ci)) else Some(FourFalse)
    else Some(FourFalse)
  }

  lemma {:induction false} CorrectOfSpec(cs: seq<Choice>)
    ensures forall k :: k in CorrectOf(cs) <==> 0 <= k < |cs| && Correct(cs[k])
    decreases |cs|
  {
    if cs != [] {
      var init := cs[..|cs| - 1];
      CorrectOfSpec(init);
      forall k | 0 <= k < |init| ensures init[k] == cs[k] { }
    }
  }

  /**
   * The options path throws exactly when some item's `_options` is a record;
   * otherwise it collects exactly the indices that are correct in some item.
   */
  lemma {:induction false} CorrectIndicesSpec(items: seq<Item>)
    ensures CorrectIndices(items).None? <==> exists i :: 0 <= i < |items| && items[i].options.OptionRecord?
    ensures CorrectIndices(items).Some? ==>
              forall k :: k in CorrectIndices(items).value <==> exists i :: CorrectAt(items, i, k)
    decreases |items|
  {
    if items != [] {
      var init, last := items[..|items| - 1], items[|items| - 1];
      CorrectIndicesSpec(init);
      assert forall i :: 0 <= i < |init| ==> init[i] == items[i];
      if CorrectIndices(items).Some? {
        var ci := CorrectIndices(init).value;
        var full := CorrectIndices(items).value;
        if last.options.OptionList? {
          CorrectOfSpec(last.options.choices);
          assert full == ci + CorrectOf(last.options.choices);
        } else {
          assert full == ci;
        }
        forall k | k in full ensures exists i :: CorrectAt(items, i, k) {
          if k in ci {
            var i :| CorrectAt(init, i, k);
            assert CorrectAt(items, i, k);
          } else {
            assert CorrectAt(items, |items| - 1, k);
          }
        }
        forall k | exists i :: CorrectAt(items, i, k) ensures k in full {
          var i :| CorrectAt(items, i, k);
          if i < |init| {
            assert CorrectAt(init, i, k);
          }
        }
      }
    }
  }

  /** An mcq with items answers each item with its `_shouldBeSelected`. */
  lemma UserAnswerMcq(c: Component)
    requires c.kind == "mcq" && c.items.Some?
    ensures UserAnswer(c).Some? && |UserAnswer(c).value| == |c.items.value|
    ensures forall i :: 0 <= i < |c.items.value| ==> UserAnswer(c).value[i] == c.items.value[i].shouldBeSelected
  {
  }

  /**
   * On the options path: the answer has one entry per option of the first
   * item (four when it lists none), entry `idx` being set exactly when `idx`
   * is a correct option index of some item; with no correct option at all it
   * is four falses; and it throws exactly when an item's `_options` is a record.
   */
  lemma UserAnswerOptions(c: Component)
    requires OnOptionsPath(c)
    ensures UserAnswer(c).None? <==> exists i :: 0 <= i < |c.items.value| && c.items.value[i].options.OptionRecord?
    ensures UserAnswer(c).Some? && (exists i, k :: CorrectAt(c.items.value, i, k)) ==>
              |UserAnswer(c).value| == OptionCount(c.items.value[0])
              && forall idx :: 0 <= idx < |UserAnswer(c).value| ==>
                   (UserAnswer(c).value[idx] <==> exists i :: CorrectAt(c.items.value, i, idx))
    ensures UserAnswer(c).Some? && !(exists i, k :: CorrectAt(c.items.value, i, k)) ==> UserAnswer(c).value == FourFalse
  {
    var items := c.items.value;
    CorrectIndicesSpec(items);
    if CorrectIndices(items).Some? {
      var ci := CorrectIndices(items).value;
      if |ci| > 0 {
        assert ci[0] in ci;
      }
      if exists i, k :: CorrectAt(items, i, k) {
        var i, k :| CorrectAt(items, i, k);
        assert k in ci;
      }
    }
  }

  /** Every other component is answered with four falses. */
  lemma UserAnswerFallback(c: Component)
    requires !(c.kind == "mcq" && c.items.Some?) && !OnOptionsPath(c)
    ensures UserAnswer(c) == Some(FourFalse)
  {
  }

  // ---------------------------------------------------------------------------
  // The patched document
  // ---------------------------------------------------------------------------

  /** A component record with every completion flag set, score 1, no attempts left, one spent. */
  predicate Completes(r: Record, now: string) {
    r.Answered? && r.isComplete && r.isInteractionComplete && r.isInprogress && r.isSubmitted && r.isCorrect
    && r.score == 1 && r.attemptsLeft == 0 && r.attemptsSpent == 1 && r.timestamp == now
    && r.attemptStates == [Attempt(1, 0, [true, true, true, true, true], [r.userAnswer])]
  }

  /** The record `componentsStateMap.set` receives for a component. */
  function AnswerRecord(c: Component, ua: seq<bool>, now: string): (r: Record)
    ensures Completes(r, now) && r.id == c.id && r.userAnswer == ua
  {
    Answered(c.id, true, true, true, ua, [Attempt(1, 0, [true, true, true, true, true], [ua])], true, 1, true, 0, 1, now)
  }

  /** The answer records of the components, in order; `None` when one of them throws. */
  function Answers(comps: seq<Component>, now: string): Option<seq<Record>>
    decreases |comps|
  {
    if comps == [] then Some([])
    else match Answers(comps[..|comps| - 1], now)
      case None => None
      case Some(rs) =>
        match UserAnswer(comps[|comps| - 1])
        case None => None
        case Some(ua) => Some(rs + [AnswerRecord(comps[|comps| - 1], ua, now)])
  }

  /** The records exist exactly when no component throws, one per component, each completing it. */
  lemma {:induction false} AnswersIff(comps: seq<Component>, now: string)
    ensures Answers(comps, now).Some? <==> forall k :: 0 <= k < |comps| ==> UserAnswer(comps[k]).Some?
    ensures Answers(comps, now).Some? ==>
              |Answers(comps, now).value| == |comps|
              && forall k :: 0 <= k < |comps| ==>
                   Answers(comps, now).value[k] == AnswerRecord(comps[k], UserAnswer(comps[k]).value, now)
    decreases |comps|
  {
    if comps != [] {
      var init := comps[..|comps| - 1];
      AnswersIff(init, now);
      assert forall k :: 0 <= k < |init| ==> init[k] == comps[k];
    }
  }

  /** A course, article, block or content object after the patch. */
  function Completed(n: Node, now: string): (r: Node)
    ensures r.isComplete && r.isInteractionComplete && r.isInprogress
    ensures r.id == n.id && r.rest == n.rest
    ensures n.timestamp != "" ==> r.timestamp == n.timestamp
    ensures n.timestamp == "" ==> r.timestamp == now
  {
    n.(isComplete := true, isInteractionComplete := true, isInprogress := true,
       timestamp := if n.timestamp == "" then now else n.timestamp)
  }

  /** The course after the patch: the three flags set, the timestamp left alone. */
  function CourseCompleted(n: Node): (r: Node)
    ensures r.isComplete && r.isInteractionComplete && r.isInprogress
    ensures r.id == n.id && r.timestamp == n.timestamp && r.rest == n.rest
  {
    n.(isComplete := true, isInteractionComplete := true, isInprogress := true)
  }

  /** An array field after its `forEach`; an absent or non-array field stays as it is. */
  function CompletedList(o: Option<seq<Node>>, now: string): (r: Option<seq<Node>>)
    ensures r.Some? <==> o.Some?
    ensures o.Some? ==> |r.value| == |o.value|
    ensures o.Some? ==> forall k :: 0 <= k < |o.value| ==> r.value[k] == Completed(o.value[k], now)
  {
    match o
    case None => None
    case Some(ns) => Some(seq(|ns|, k requires 0 <= k < |ns| => Completed(ns[k], now)))
  }

  /** The records of `stateData.components` when it is an array, and none otherwise. */
  function Existing(s: State): seq<Record> {
    s.components.GetOr([])
  }

  /** The records of `componentsStateMap`, in key order; `None` when a component's answer throws. */
  function Merged(held: seq<Record>, comps: seq<Component>, now: string): Option<seq<Record>> {
    match Answers(comps, now)
    case None => None
    case Some(ans) => Some(PutAll(PutAll([], held), ans))
  }

  /**
   * The document after `patchStateWithAnswers(s, comps)` at time `now`;
   * `None` when the patch throws, which happens before it writes anything.
   */
  function Patched(s: State, comps: seq<Component>, now: string): (r: Option<State>)
    ensures comps == [] ==> r == Some(s)
    ensures r.None? <==> comps != [] && exists k :: 0 <= k < |comps| && UserAnswer(comps[k]).None?
    ensures r.Some? && comps != [] ==>
              r.value.components == Merged(Existing(s), comps, now) && r.value.offlineStorage == s.offlineStorage
              && r.value.rest == s.rest
              && r.value.course == (if s.course.Some? then Some(CourseCompleted(s.course.value)) else None)
              && r.value.articles == CompletedList(s.articles, now)
              && r.value.blocks == CompletedList(s.blocks, now)
              && r.value.contentObjects == CompletedList(s.contentObjects, now)
  {
    AnswersIff(comps, now);
    if comps == [] then Some(s)
    else match Merged(Existing(s), comps, now)
      case None => None
      case Some(out) =>
        Some(State(Some(out),
                   if s.course.Some? then Some(CourseCompleted(s.course.value)) else None,
                   CompletedList(s.articles, now), CompletedList(s.blocks, now),
                   CompletedList(s.contentObjects, now), s.offlineStorage, s.rest))
  }

  /** With records of distinct ids, the first pass of the merge keeps them as they are. */
  lemma ExistingKept(s: State)
    requires UniqueIds(Existing(s))
    ensures PutAll([], Existing(s)) == Existing(s)
  {
    PutAllOntoEmpty(Existing(s));
  }

  /**
   * The merged component records. The records held before keep their order,
   * each replaced by the answer record of the last component with its id, or
   * kept as it was when no component has its id; the others follow, one per
   * new id, in the order the ids first occur among the components, each the
   * answer record of the last component with that id. Ids stay distinct.
   */
  lemma MergedOrder(held: seq<Record>, comps: seq<Component>, now: string)
    requires Merged(held, comps, now).Some?
    ensures var base := PutAll([], held);
            var ans := Answers(comps, now).value;
            var out := Merged(held, comps, now).value;
            UniqueIds(out) && |base| <= |out|
            && (forall i :: 0 <= i < |base| ==> out[i] == LastWith(ans, base[i].id).GetOr(base[i]))
            && (forall k :: |base| <= k < |out| ==>
                  IdIndex(base, out[k].id).None? && IdIndex(ans, out[k].id).Some? && LastWith(ans, out[k].id) == Some(out[k]))
            && (forall k, l :: |base| <= k < l < |out| ==> IdIndex(ans, out[k].id).value < IdIndex(ans, out[l].id).value)
  {
    var base := PutAll([], held);
    var ans := Answers(comps, now).value;
    PutAllUnique([], held);
    PutAllUnique(base, ans);
    PutAllKeeps(base, ans);
    PutAllNew(base, ans);
    PutAllOrder(base, ans);
  }

  /** Every answer record completes its component. */
  lemma {:induction false} AnswersComplete(comps: seq<Component>, now: string)
    requires Answers(comps, now).Some?
    ensures forall r :: r in Answers(comps, now).value ==> Completes(r, now)
    decreases |comps|
  {
    if comps != [] {
      AnswersComplete(comps[..|comps| - 1], now);
    }
  }

  /** One answer record per component, carrying the component's id. */
  lemma {:induction false} AnswersIds(comps: seq<Component>, now: string)
    requires Answers(comps, now).Some?
    ensures |Answers(comps, now).value| == |comps|
    ensures forall k :: 0 <= k < |comps| ==> Answers(comps, now).value[k].id == comps[k].id
    decreases |comps|
  {
    if comps != [] {
      AnswersIds(comps[..|comps| - 1], now);
    }
  }

  /** Wherever the map holds an id that was set, it holds the last record set for it. */
  lemma HeldIsLast(m: seq<Record>, rs: seq<Record>, j: nat)
    requires UniqueIds(m)
    requires j < |PutAll(m, rs)| && IdIndex(rs, PutAll(m, rs)[j].id).Some?
    ensures LastWith(rs, PutAll(m, rs)[j].id) == Some(PutAll(m, rs)[j])
  {
    PutAllKeeps(m, rs);
    PutAllNew(m, rs);
  }

  /** Every component of the list is held under its id by a record with all completion flags set. */
  lemma MergedCompletes(held: seq<Record>, comps: seq<Component>, now: string)
    requires Merged(held, comps, now).Some?
    ensures var out := Merged(held, comps, now).value;
            forall k :: 0 <= k < |comps| ==> exists j :: 0 <= j < |out| && out[j].id == comps[k].id && Completes(out[j], now)
  {
    var base := PutAll([], held);
    var ans := Answers(comps, now).value;
    var out := PutAll(base, ans);
    AnswersIds(comps, now);
    AnswersComplete(comps, now);
    PutAllUnique([], held);
    PutAllHolds(base, ans);
    assert out == Merged(held, comps, now).value;
    forall k | 0 <= k < |comps| ensures exists j :: 0 <= j < |out| && out[j].id == comps[k].id && Completes(out[j], now) {
      assert IdIndex(out, ans[k].id).Some?;
      var j := IdIndex(out, ans[k].id).value;
      assert out[j].id == comps[k].id;
      assert IdIndex(ans, out[j].id).Some?;
      HeldIsLast(base, ans, j);
      assert out[j] in ans;
    }
  }

  // ---------------------------------------------------------------------------
  // The patch, step by step
  // ---------------------------------------------------------------------------

  /** The inner `forEach` of the options path: the correct indices of one list appended to `acc`. */
  method PushCorrect(cs: seq<Choice>, acc: seq<nat>) returns (r: seq<nat>)
    ensures r == acc + CorrectOf(cs)
  {
    r := acc;
    var k := 0;
    while k < |cs|
      invariant 0 <= k <= |cs|
      invariant r == acc + CorrectOf(cs[..k])
    {
      assert cs[..k + 1][..k] == cs[..k];
      if Correct(cs[k]) {
        r := r + [k];
      }
      k := k + 1;
    }
    assert cs[..|cs|] == cs;
  }

  /** The `userAnswer` computation of the component loop. */
  method ComputeUserAnswer(c: Component) returns (ua: Option<seq<bool>>)
    ensures ua == UserAnswer(c)
  {
    if c.kind == "mcq" && c.items.Some? {
      return Some(Selections(c.items.value));
    }
    if !OnOptionsPath(c) {
      return Some(FourFalse);
    }
    var items := c.items.value;
    var ci: seq<nat> := [];
    var i := 0;
    while i < |items|
      invariant 0 <= i <= |items|
      invariant CorrectIndices(items[..i]) == Some(ci)
    {
      assert items[..i + 1][..i] == items[..i];
      match items[i].options {
        case NoOptions =>
        case OptionRecord(_) =>
          CorrectIndicesSpec(items);
          return None;
        case OptionList(cs) =>
          ci := PushCorrect(cs, ci);
      }
      i := i + 1;
    }
    assert items[..|items|] == items;
    if |ci| > 0 {
      return Some(Marks(OptionCount(items[0]), ci));
    }
    return Some(FourFalse);
  }

  /** The `forEach` over an array of nodes, setting the flags of each in turn. */
  method MarkNodes(ns: seq<Node>, now: string) returns (r: seq<Node>)
    ensures Some(r) == CompletedList(Some(ns), now)
  {
    r := ns;
    var i := 0;
    while i < |r|
      invariant 0 <= i <= |r| == |ns|
      invariant forall k :: 0 <= k < i ==> r[k] == Completed(ns[k], now)
      invariant forall k :: i <= k < |r| ==> r[k] == ns[k]
    {
      r := r[i := Completed(r[i], now)];
      i := i + 1;
    }
    assert r == CompletedList(Some(ns), now).value;
  }

  /**
   * The two `forEach` loops that fill `componentsStateMap`: the records held
   * first, then one answer record per component; `None` when a component's
   * answer throws.
   */
  method MergeRecords(held: seq<Record>, comps: seq<Component>, now: string) returns (m: Option<seq<Record>>)
    ensures m == Merged(held, comps, now)
  {
    var table: seq<Record> := [];
    var i := 0;
    while i < |held|
      invariant 0 <= i <= |held|
      invariant table == PutAll([], held[..i])
    {
      assert held[..i + 1][..i] == held[..i];
      table := Put(table, held[i]);
      i := i + 1;
    }
    assert held[..|held|] == held;
    ghost var ans: seq<Record> := [];
    var j := 0;
    while j < |comps|
      invariant 0 <= j <= |comps|
      invariant Answers(comps[..j], now) == Some(ans)
      invariant table == PutAll(PutAll([], held), ans)
    {
      assert comps[..j + 1][..j] == comps[..j];
      var ua := ComputeUserAnswer(comps[j]);
      if ua.None? {
        AnswersIff(comps, now);
        return None;
      }
      var rec := AnswerRecord(comps[j], ua.value, now);
      table := Put(table, rec);
      ans := ans + [rec];
      j := j + 1;
    }
    assert comps[..|comps|] == comps;
    return Some(table);
  }

  /** A state document, updated in place by the patch. */
  class StateData {
    var components: Option<seq<Record>>
    var course: Option<Node>
    var articles: Option<seq<Node>>
    var blocks: Option<seq<Node>>
    var contentObjects: Option<seq<Node>>
    var offlineStorage: bool
    var rest: nat

    constructor (s: State)
      ensures Snapshot() == s
    {
      components, course, articles, blocks := s.components, s.course, s.articles, s.blocks;
      contentObjects, offlineStorage, rest := s.contentObjects, s.offlineStorage, s.rest;
    }

    /** The document's current contents. */
    function Snapshot(): State
      reads this
    {
      State(components, course, articles, blocks, contentObjects, offlineStorage, rest)
    }

    /**
     * `patchStateWithAnswers(this, comps)` at time `now`: with no components
     * nothing changes; a component whose answer throws leaves the document
     * as it was; otherwise the document becomes the patched one.
     */
    method Patch(comps: seq<Component>, now: string) returns (threw: bool)
      modifies this
      ensures threw <==> Patched(old(Snapshot()), comps, now).None?
      ensures Snapshot() == Patched(old(Snapshot()), comps, now).GetOr(old(Snapshot()))
    {
      if |comps| == 0 {
        return false;
      }
      var merged := MergeRecords(components.GetOr([]), comps, now);
      if merged.None? {
        return true;
      }
      components := merged;
      if course.Some? {
        course := Some(CourseCompleted(course.value));
      }
      if articles.Some? {
        var ns := MarkNodes(articles.value, now);
        articles := Some(ns);
      }
      if blocks.Some? {
        var ns := MarkNodes(blocks.value, now);
        blocks := Some(ns);
      }
      if contentObjects.Some? {
        var ns := MarkNodes(contentObjects.value, now);
        contentObjects := Some(ns);
      }
      return false;
    }
  }

  /** `patchStateWithAnswers(stateData, components)`: a null document is handed back untouched. */
  method PatchStateWithAnswers(st: StateData?, comps: seq<Component>, now: string) returns (r: StateData?, threw: bool)
    modifies st
    ensures r == st
    ensures st == null ==> !threw
    ensures st != null ==> (threw <==> Patched(old(st.Snapshot()), comps, now).None?)
    ensures st != null ==> st.Snapshot() == Patched(old(st.Snapshot()), comps, now).GetOr(old(st.Snapshot()))
  {
    if st == null {
      return st, false;
    }
    threw := st.Patch(comps, now);
    r := st;
  }
}
