/** The guess box with suggestions (src/components/AutocompleteInput.js): the
    filter that picks suggestions from the answer pool, the arrow-key
    highlight, and an `AutocompleteInput` class whose handlers update the
    component's state in place. */
module Autocomplete {
  import opened Lists
  import opened Strings

  const MaxSuggestions := 10

  /** The filter's test for one pool entry: its normalized form contains the
      normalized input, and no guessed answer normalizes equal to it. */
  predicate IsSuggestion(input: string, guessed: seq<string>, a: string) {
    Contains(Normalize(a), input) && !MatchesAny(guessed, a)
  }

  /** `allPossibleAnswers.filter(...)`: every pool entry that passes the
      test for the normalized input, in pool order. */
  function Matches(input: string, pool: seq<string>, guessed: seq<string>): (r: seq<string>)
    ensures |r| <= |pool|
  {
    if pool == [] then []
    else (if IsSuggestion(input, guessed, pool[0]) then [pool[0]] else []) + Matches(input, pool[1..], guessed)
  }

  /** The suggestion list: nothing for blank input, otherwise the first ten
      matches. */
  function Suggestions(value: string, pool: seq<string>, guessed: seq<string>): (r: seq<string>)
    ensures |r| <= MaxSuggestions
    ensures Trim(value) == "" ==> r == []
  {
    if Trim(value) == "" then []
    else
      var m := Matches(Normalize(value), pool, guessed);
      if |m| <= MaxSuggestions then m else m[..MaxSuggestions]
  }

  datatype Key = ArrowDown | ArrowUp | Enter | Escape | OtherKey

  /** The highlighted row after a key, with `count` suggestions showing;
      -1 is no row. */
  function Highlight(key: Key, selected: int, count: nat): int {
    match key
    case ArrowDown => if selected < count - 1 then selected + 1 else selected
    case ArrowUp => if selected > 0 then selected - 1 else -1
    case _ => selected
  }

  /** What a key press asks of the game: nothing, or `onSubmit(text)`. */
  datatype Action = NoAction | Submit(text: string)

  class AutocompleteInput {
    // props
    var value: string
    var pool: seq<string>
    var guessed: seq<string>
    // state
    var filtered: seq<string>
    var showDropdown: bool
    var selectedIndex: int

    /** The shown list is the suggestion list for the current props, and the
        highlight is -1 or a row of it. */
    predicate Valid()
      reads this
    {
      && filtered == Suggestions(value, pool, guessed)
      && -1 <= selectedIndex
      && (filtered != [] ==> selectedIndex < |filtered|)
    }

    constructor (pool: seq<string>, guessed: seq<string>)
      ensures Valid()
      ensures this.value == "" && this.pool == pool && this.guessed == guessed
      ensures filtered == [] && !showDropdown && selectedIndex == -1
    {
      this.value := "";
      this.pool := pool;
      this.guessed := guessed;
      filtered := [];
      showDropdown := false;
      selectedIndex := -1;
    }

    /** The filter effect. */
    method Refilter()
      requires -1 <= selectedIndex
      modifies this
      ensures Valid()
      ensures filtered == Suggestions(value, pool, guessed)
      ensures Trim(value) == "" ==> !showDropdown && selectedIndex == old(selectedIndex)
      ensures Trim(value) != "" ==> showDropdown == (|Matches(Normalize(value), pool, guessed)| > 0) && selectedIndex == -1
      ensures value == old(value) && pool == old(pool) && guessed == old(guessed)
    {
      if Trim(value) == "" {
        filtered := [];
        showDropdown := false;
        return;
      }
      var normalizedInput := Normalize(value);
      var matches := Matches(normalizedInput, pool, guessed);
      filtered := if |matches| <= MaxSuggestions then matches else matches[..MaxSuggestions];
      showDropdown := |matches| > 0;
      selectedIndex := -1;
    }

    /** A render of the game passing new props. The guessed list is built
        afresh on every render, so the filter effect runs each time. */
    method Render(newValue: string, newPool: seq<string>, newGuessed: seq<string>)
      requires Valid()
      modifies this
      ensures Valid()
      ensures value == newValue && pool == newPool && guessed == newGuessed
      ensures Trim(value) != "" ==> showDropdown == (|Matches(Normalize(value), pool, guessed)| > 0) && selectedIndex == -1
      ensures Trim(value) == "" ==> !showDropdown
    {
      value := newValue;
      pool := newPool;
      guessed := newGuessed;
      Refilter();
    }

    /** `handleChange`: the game takes the new text and re-renders (when the
        text differs), which reruns the filter; the dropdown is asked to open. */
    method HandleChange(text: string)
      requires Valid()
      modifies this
      ensures Valid()
      ensures value == text && pool == old(pool) && guessed == old(guessed)
      ensures text == old(value) ==> showDropdown && selectedIndex == old(selectedIndex)
      ensures text != old(value) && Trim(text) != "" ==>
        showDropdown == (|Matches(Normalize(text), pool, guessed)| > 0) && selectedIndex == -1
      ensures text != old(value) && Trim(text) == "" ==> !showDropdown
    {
      if text != value {
        value := text;
        showDropdown := true;
        Refilter();
      } else {
        showDropdown := true;
      }
    }

    /** `handleFocus`: reopen the dropdown when there is something to show. */
    method HandleFocus()
      requires Valid()
      modifies this
      ensures Valid()
      ensures showDropdown == (old(showDropdown) || filtered != [])
      ensures value == old(value) && filtered == old(filtered) && selectedIndex == old(selectedIndex)
      ensures pool == old(pool) && guessed == old(guessed)
    {
      if |filtered| > 0 {
        showDropdown := true;
      }
    }

    /** `handleBlur`: close the dropdown (after the source's 200 ms delay). */
    method HandleBlur()
      requires Valid()
      modifies this
      ensures Valid()
      ensures !showDropdown
      ensures value == old(value) && filtered == old(filtered) && selectedIndex == old(selectedIndex)
      ensures pool == old(pool) && guessed == old(guessed)
    {
      showDropdown := false;
    }

    /** `handleSelect`: put the answer in the box and close the dropdown; a
        changed text reruns the filter, which may open it again. */
    method HandleSelect(answer: string)
      requires Valid()
      modifies this
      ensures Valid()
      ensures value == answer && pool == old(pool) && guessed == old(guessed)
      ensures answer == old(value) ==> !showDropdown && selectedIndex == old(selectedIndex)
      ensures answer != old(value) ==>
        showDropdown == (Trim(answer) != "" && |Matches(Normalize(answer), pool, guessed)| > 0)
        && selectedIndex == (if Trim(answer) != "" then -1 else old(selectedIndex))
    {
      if answer != value {
        value := answer;
        showDropdown := false;
        Refilter();
      } else {
        showDropdown := false;
      }
    }

    /** Hovering a row highlights it. */
    method HandleMouseEnter(index: int)
      requires Valid() && 0 <= index < |filtered|
      modifies this
      ensures Valid()
      ensures selectedIndex == index
      ensures value == old(value) && filtered == old(filtered) && showDropdown == old(showDropdown)
      ensures pool == old(pool) && guessed == old(guessed)
    {
      selectedIndex := index;
    }

    /** `handleKeyDown`. */
    method HandleKeyDown(key: Key) returns (action: Action)
      requires Valid()
      modifies this
      ensures Valid()
      ensures pool == old(pool) && guessed == old(guessed)
      ensures !old(showDropdown) || old(filtered) == [] ==>
        action == (if key == Enter then Submit(old(value)) else NoAction)
        && value == old(value) && showDropdown == old(showDropdown) && selectedIndex == old(selectedIndex)
      ensures old(showDropdown) && old(filtered) != [] ==>
        match key
        case ArrowDown | ArrowUp =>
          action == NoAction && value == old(value) && showDropdown
          && selectedIndex == Highlight(key, old(selectedIndex), |old(filtered)|)
        case Enter =>
          if 0 <= old(selectedIndex) < |old(filtered)| then
            var picked := old(filtered)[old(selectedIndex)];
            && action == NoAction && value == picked
            && (picked == old(value) ==> !showDropdown && selectedIndex == old(selectedIndex))
            && (picked != old(value) ==>
                  showDropdown == (Trim(picked) != "" && |Matches(Normalize(picked), pool, guessed)| > 0)
                  && selectedIndex == (if Trim(picked) != "" then -1 else old(selectedIndex)))
          else
            action == Submit(old(value)) && value == old(value)
            && showDropdown == old(showDropdown) && selectedIndex == old(selectedIndex)
        case Escape =>
          action == NoAction && value == old(value) && !showDropdown && selectedIndex == -1
        case OtherKey =>
          action == NoAction && value == old(value) && showDropdown && selectedIndex == old(selectedIndex)
    {
      if !showDropdown || |filtered| == 0 {
        action := if key == Enter then Submit(value) else NoAction;
        return;
      }
      action := NoAction;
      match key
      case ArrowDown =>
        selectedIndex := if selectedIndex < |filtered| - 1 then selectedIndex + 1 else selectedIndex;
      case ArrowUp =>
        selectedIndex := if selectedIndex > 0 then selectedIndex - 1 else -1;
      case Enter =>
        if 0 <= selectedIndex < |filtered| {
          HandleSelect(filtered[selectedIndex]);
        } else {
          action := Submit(value);
        }
      case Escape =>
        showDropdown := false;
        selectedIndex := -1;
      case OtherKey =>
    }
  }
}
