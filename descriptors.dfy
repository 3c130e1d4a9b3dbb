/**
 * The shapes of the question descriptors served in `components.json`, as far
 * as the content script, the state patcher and the statement builder look at
 * them. JavaScript truthiness is made explicit: an absent string field is
 * the empty string (both are falsy) except an item's `text`, whose absence
 * makes `text.trim()` throw; `_options` is absent, a list or a record; and
 * `_isCorrect` is a boolean or some other value, which is truthy or not.
 */
module Descriptors {
  import opened Wrappers

  /** The value of an `_isCorrect` field: a boolean, or any other value (absent included) with its truthiness. */
  datatype Flag = Bool(value: bool) | NotBool(truthy: bool)
  {
    /** The value is truthy. */
    predicate Truthy() {
      if Bool? then value else truthy
    }
  }

  /** One entry of an item's `_options` list: `text`, `_isCorrect`, `id` and `_id`. */
  datatype Choice = Choice(text: string, isCorrect: Flag, id: string, internalId: string)

  /** An item's `_options` field: absent, a list of choices, or a record holding `text` (open-text items). */
  datatype Options = NoOptions | OptionList(choices: seq<Choice>) | OptionRecord(text: string)

  /** An item's `_graphic` record. */
  datatype Graphic = Graphic(alt: string, src: string)

  /**
   * One entry of a component's `_items`: the fields the classifier tests,
   * `_shouldBeSelected` (as its truthiness) and `_id`.
   */
  datatype Item = Item(
    text: Option<string>,
    question: string,
    answer: string,
    graphic: Option<Graphic>,
    id: string,
    preText: string,
    postText: string,
    options: Options,
    shouldBeSelected: bool,
    internalId: string)

  /**
   * One entry of `components.json`: `_id`, `_component`, `_items` (absent or
   * a list, an empty list being truthy), `title` and `body`.
   */
  datatype Component = Component(id: string, kind: string, items: Option<seq<Item>>, title: string, body: string)

  /** `opt._isCorrect` is truthy. */
  predicate Correct(c: Choice) {
    c.isCorrect.Truthy()
  }

  /** The index of the first correct choice, as `entries()` followed by the first `_isCorrect` hit finds it. */
  function FirstCorrect(cs: seq<Choice>): (r: Option<nat>)
    ensures r.Some? ==> r.value < |cs| && Correct(cs[r.value])
    ensures r.Some? ==> forall j :: 0 <= j < r.value ==> !Correct(cs[j])
    ensures r.None? ==> forall j :: 0 <= j < |cs| ==> !Correct(cs[j])
  {
    if cs == [] then None
    else if Correct(cs[0]) then Some(0)
    else match FirstCorrect(cs[1..])
      case None => None
      case Some(k) => Some(k + 1)
  }
}
