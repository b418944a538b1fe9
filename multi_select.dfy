/** The multi-select drop-down: the selection is a list of options, toggled
    and removed by value, and the option list is narrowed by a case-blind
    search on the label. */
module MultiSelect {
  import opened Common

  /** `{ value, label }`: the option shape every screen passes in (`label` is
      a reserved word here, so the field is `text`). */
  datatype Choice = Choice(value: string, text: string)

  /** The `placeholder` prop's default. */
  const DefaultPlaceholder: string := "Select items..."

  /** `selected.some(item => item.value === option.value)`. */
  predicate IsSelected(selected: seq<Choice>, o: Choice) {
    exists i | 0 <= i < |selected| :: selected[i].value == o.value
  }

  /** The filter callback `item => item.value !== v`. */
  function OtherValue(v: string): Choice -> bool {
    (c: Choice) => c.value != v
  }

  /** `removeOption`: every entry carrying the option's value goes, the
      others stay. */
  function RemoveOption(selected: seq<Choice>, o: Choice): (r: seq<Choice>)
    ensures !IsSelected(r, o)
    ensures forall i | 0 <= i < |r| :: r[i] in selected
    ensures forall i | 0 <= i < |selected| && selected[i].value != o.value :: selected[i] in r
  {
    Filter(selected, OtherValue(o.value))
  }

  /** Removal keeps the surviving entries in their order: it works entry by
      entry over a concatenation. */
  lemma RemoveOptionConcat(a: seq<Choice>, b: seq<Choice>, o: Choice)
    ensures RemoveOption(a + b, o) == RemoveOption(a, o) + RemoveOption(b, o)
  {
    FilterConcat(a, b, OtherValue(o.value));
  }

  /** Removing a value no entry carries changes nothing. */
  lemma RemoveAbsent(selected: seq<Choice>, o: Choice)
    requires !IsSelected(selected, o)
    ensures RemoveOption(selected, o) == selected
  {
    FilterKeepsAll(selected, OtherValue(o.value));
  }

  /** `toggleOption`: a selected value is removed everywhere, an unselected
      option is appended at the end. */
  function ToggleOption(selected: seq<Choice>, o: Choice): (r: seq<Choice>)
    ensures IsSelected(r, o) <==> !IsSelected(selected, o)
    ensures !IsSelected(selected, o) ==> r == selected + [o]
    ensures IsSelected(selected, o) ==> r == RemoveOption(selected, o)
  {
    if IsSelected(selected, o) then RemoveOption(selected, o)
    else
      assert (selected + [o])[|selected|] == o;
      selected + [o]
  }

  /** Toggling an option that is not selected, and toggling it again, gives
      back the original selection. */
  lemma ToggleTwiceRestores(selected: seq<Choice>, o: Choice)
    requires !IsSelected(selected, o)
    ensures ToggleOption(ToggleOption(selected, o), o) == selected
  {
    RemoveOptionConcat(selected, [o], o);
    RemoveAbsent(selected, o);
    FilterSingle(o, OtherValue(o.value));
  }

  /** Toggling a selected option twice drops all its copies and puts the
      option once at the end. */
  lemma ToggleTwiceMovesToEnd(selected: seq<Choice>, o: Choice)
    requires IsSelected(selected, o)
    ensures ToggleOption(ToggleOption(selected, o), o) == RemoveOption(selected, o) + [o]
  {
  }

  /** The filter callback of `filteredOptions`. */
  function LabelMatches(term: string): Choice -> bool {
    (c: Choice) => Contains(Lower(c.text), Lower(term))
  }

  /** `filteredOptions`: the options whose lowercased label contains the
      lowercased search term. */
  function FilterOptions(options: seq<Choice>, term: string): (r: seq<Choice>)
    ensures forall i | 0 <= i < |r| :: r[i] in options && Contains(Lower(r[i].text), Lower(term))
    ensures forall i | 0 <= i < |options| && Contains(Lower(options[i].text), Lower(term)) ::
              options[i] in r
  {
    Filter(options, LabelMatches(term))
  }

  /** The search keeps the matching options in their original order. */
  lemma FilterOptionsConcat(a: seq<Choice>, b: seq<Choice>, term: string)
    ensures FilterOptions(a + b, term) == FilterOptions(a, term) + FilterOptions(b, term)
  {
    FilterConcat(a, b, LabelMatches(term));
  }

  /** An empty search term keeps every option. */
  lemma EmptyTermKeepsAll(options: seq<Choice>)
    ensures FilterOptions(options, "") == options
  {
    assert Lower("") == "";
    forall i | 0 <= i < |options| ensures LabelMatches("")(options[i]) {
      ContainsEmpty(Lower(options[i].text));
    }
    FilterKeepsAll(options, LabelMatches(""));
  }

  /** The text of the drop-down button. */
  function ButtonLabel(selected: seq<Choice>, placeholder: string): (r: string)
    ensures |selected| == 0 ==> r == placeholder
  {
    if |selected| > 0 then IntToString(|selected|) + " selected" else placeholder
  }

  /** A non-empty selection shows its size, read back by `parseInt`, followed
      by " selected". */
  lemma ButtonLabelShowsCount(selected: seq<Choice>, placeholder: string)
    requires |selected| > 0
    ensures ParseInt(ButtonLabel(selected, placeholder)) == Some(|selected|)
    ensures var r := ButtonLabel(selected, placeholder);
            |r| >= 9 && r[|r| - 9..] == " selected"
  {
    ParseIntOfIntToStringThen(|selected|, " selected");
  }
}
