/**
 * The question classifier of `setQuestionSections`: a first-match rule over
 * the shape of a component's first item, yielding one of seven type tags.
 */
module Classifier {
  import opened Wrappers
  import opened Descriptors

  datatype QuestionType = Basic | DropdownSelect | Match | YesNo | OpenTextInput | FillBlanks | TableDropdown

  /** `item._options?.[0]?.text` as a string, empty when there is no first listed choice. */
  function FirstOptionText(i: Item): string {
    if i.options.OptionList? && |i.options.choices| > 0 then i.options.choices[0].text else ""
  }

  /** `text` and `_options` are both truthy. */
  predicate IsDropdownSelect(i: Item) {
    i.text.Some? && i.text.value != "" && !i.options.NoOptions?
  }

  /** `question` and `answer` are both truthy. */
  predicate IsMatch(i: Item) {
    i.question != "" && i.answer != ""
  }

  /** `_graphic?.alt` and `_graphic?.src` are both truthy. */
  predicate IsYesNo(i: Item) {
    i.graphic.Some? && i.graphic.value.alt != "" && i.graphic.value.src != ""
  }

  /** `id` and `_options?.text` are both truthy (only an options record has a `text`). */
  predicate IsOpenTextInput(i: Item) {
    i.id != "" && i.options.OptionRecord? && i.options.text != ""
  }

  /** `preText`, `postText` and `_options?.[0]?.text` are all truthy. */
  predicate IsFillBlanks(i: Item) {
    i.preText != "" && i.postText != "" && FirstOptionText(i) != ""
  }

  /** The first listed choice has a truthy `text` and a boolean `_isCorrect`. */
  predicate IsTableDropdown(i: Item) {
    FirstOptionText(i) != "" && i.options.choices[0].isCorrect.Bool?
  }

  /**
   * The type tag of a question whose first item is `i`, with the guard of the
   * tableDropdown rule read as `_options?.[0]?.text` (see `ClassifyAsWritten`).
   */
  function Classify(i: Item): QuestionType {
    if IsDropdownSelect(i) then DropdownSelect
    else if IsMatch(i) then Match
    else if IsYesNo(i) then YesNo
    else if IsOpenTextInput(i) then OpenTextInput
    else if IsFillBlanks(i) then FillBlanks
    else if IsTableDropdown(i) then TableDropdown
    else Basic
  }

  /**
   * The classifier as written: its tableDropdown guard reads
   * `_options?.[0].text`, which throws a TypeError when `_options` is an
   * empty list or a record (`None` here).
   */
  function ClassifyAsWritten(i: Item): Option<QuestionType> {
    if IsDropdownSelect(i) then Some(DropdownSelect)
    else if IsMatch(i) then Some(Match)
    else if IsYesNo(i) then Some(YesNo)
    else if IsOpenTextInput(i) then Some(OpenTextInput)
    else if IsFillBlanks(i) then Some(FillBlanks)
    else match i.options
      case NoOptions => Some(Basic)
      case OptionRecord(_) => None
      case OptionList(cs) =>
        if cs == [] then None
        else if cs[0].text != "" && cs[0].isCorrect.Bool? then Some(TableDropdown)
        else Some(Basic)
  }

  /** Whenever the classifier as written does not throw, it agrees with `Classify`. */
  lemma AsWrittenAgrees(i: Item)
    ensures ClassifyAsWritten(i).Some? ==> ClassifyAsWritten(i) == Some(Classify(i))
  {
  }

  /**
   * The classifier as written throws exactly on items that fall through to
   * the tableDropdown test with an empty options list or an options record.
   */
  lemma AsWrittenThrowsIff(i: Item)
    ensures ClassifyAsWritten(i).None? <==>
              Classify(i) == Basic && (i.options.OptionRecord? || i.options == OptionList([]))
  {
  }

  /** An item whose only field is an empty `_options` list makes the classifier as written throw. */
  lemma AsWrittenThrowsOnEmptyOptions()
    ensures var i := Item(None, "", "", None, "", "", "", OptionList([]), false, "");
            ClassifyAsWritten(i).None? && Classify(i) == Basic
  {
  }

  /** One rule of the classifier's priority table. */
  datatype Rule = Rule(holds: Item -> bool, tag: QuestionType)

  /** The priority table, first rule first. */
  function Rules(): seq<Rule> {
    [ Rule(IsDropdownSelect, DropdownSelect),
      Rule(IsMatch, Match),
      Rule(IsYesNo, YesNo),
      Rule(IsOpenTextInput, OpenTextInput),
      Rule(IsFillBlanks, FillBlanks),
      Rule(IsTableDropdown, TableDropdown) ]
  }

  /** The tag of the first rule that holds of `i`, and `Basic` when none does. */
  function FirstMatch(rules: seq<Rule>, i: Item): QuestionType {
    if rules == [] then Basic
    else if rules[0].holds(i) then rules[0].tag
    else FirstMatch(rules[1..], i)
  }

  /** `Classify` is the first-match reading of the priority table. */
  lemma ClassifyIsFirstMatch(i: Item)
    ensures Classify(i) == FirstMatch(Rules(), i)
  {
    var rs := Rules();
    assert rs[6..] == [];
    assert FirstMatch(rs[5..], i) == if IsTableDropdown(i) then TableDropdown else Basic by {
      assert rs[5..][0] == rs[5] && rs[5..][1..] == rs[6..];
    }
    assert FirstMatch(rs[4..], i) == if IsFillBlanks(i) then FillBlanks else FirstMatch(rs[5..], i) by {
      assert rs[4..][0] == rs[4] && rs[4..][1..] == rs[5..];
    }
    assert FirstMatch(rs[3..], i) == if IsOpenTextInput(i) then OpenTextInput else FirstMatch(rs[4..], i) by {
      assert rs[3..][0] == rs[3] && rs[3..][1..] == rs[4..];
    }
    assert FirstMatch(rs[2..], i) == if IsYesNo(i) then YesNo else FirstMatch(rs[3..], i) by {
      assert rs[2..][0] == rs[2] && rs[2..][1..] == rs[3..];
    }
    assert FirstMatch(rs[1..], i) == if IsMatch(i) then Match else FirstMatch(rs[2..], i) by {
      assert rs[1..][0] == rs[1] && rs[1..][1..] == rs[2..];
    }
  }

  /** A question is classified `Basic` exactly when no rule of the table holds of its first item. */
  lemma BasicIffNoRule(i: Item)
    ensures Classify(i) == Basic <==> forall k :: 0 <= k < |Rules()| ==> !Rules()[k].holds(i)
  {
    var rs := Rules();
    if Classify(i) == Basic {
      forall k | 0 <= k < |rs| ensures !rs[k].holds(i) {
        assert k == 0 || k == 1 || k == 2 || k == 3 || k == 4 || k == 5;
      }
    } else {
      var k := if IsDropdownSelect(i) then 0 else if IsMatch(i) then 1 else if IsYesNo(i) then 2
               else if IsOpenTextInput(i) then 3 else if IsFillBlanks(i) then 4 else 5;
      assert rs[k].holds(i);
    }
  }

  /** A shape that several rules accept gets the tag of the earliest: text and options beat question and answer. */
  lemma DropdownSelectFirst(i: Item)
    requires IsDropdownSelect(i) && IsMatch(i) && IsFillBlanks(i)
    ensures Classify(i) == DropdownSelect
  {
  }

  /** An item with text "Q1" and options X (wrong) and Y (right) is a dropdownSelect question bound to option 1. */
  lemma DropdownScenario()
    ensures var i := Item(Some("Q1"), "", "", None, "", "", "",
                          OptionList([Choice("X", Bool(false), "", ""), Choice("Y", Bool(true), "", "")]), false, "");
            Classify(i) == DropdownSelect && FirstCorrect(i.options.choices) == Some(1)
  {
  }
}
