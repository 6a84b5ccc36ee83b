/** The page state of app.js: the text in the expression input and the history
    list, and the handlers that change them. */
module Page {
  import opened Results
  import opened Errors
  import opened Text
  import opened Expression
  import opened Editor
  import opened History

  class Calculator {
    /** `expressionInput.value`. */
    var input: string
    /** The module-level `history`, newest first. */
    var history: seq<Entry>

    /** The page as it loads: the input's initial text and the history read
        back from storage. */
    constructor (initial: string, stored: seq<Entry>)
      ensures input == initial && history == stored
    {
      input := initial;
      history := stored;
    }

    /** `evaluateExpression`: evaluates the input; on success a new,
        unstarred entry for the trimmed expression, stamped `now`, goes first in
        the history, which is capped at thirty; on failure the history is left
        as it was.  The input is never changed. */
    method EvaluateInput(pow: (real, real) -> real, now: int) returns (r: Result<real, Error>)
      modifies this
      ensures r == Evaluate(old(input), pow)
      ensures input == old(input)
      ensures history == if r.Ok? then Prepend(Entry(Trim(old(input)), r.value, now, false), old(history)) else old(history)
      ensures r.Ok? ==> |history| <= Limit && history[0] == Entry(Trim(input), r.value, now, false)
    {
      r := EvaluateExpression(input, Tokenizer.Intended, pow);
      if r.Ok? {
        history := Prepend(Entry(Trim(input), r.value, now, false), history);
        PrependCapped(Entry(Trim(input), r.value, now, false), old(history));
      }
    }

    /** `appendToExpression`: adds a token through the editing rule; a refused
        token leaves the input as it was.  The history is never changed. */
    method AppendToken(token: char) returns (e: Edit)
      modifies this
      ensures e == AppendToExpression(old(input), token)
      ensures input == if e.NewValue? then e.value else old(input)
      ensures history == old(history)
      ensures PrefixesBalanced(old(input)) ==> PrefixesBalanced(input)
      ensures OneDecimalPerNumber(old(input)) ==> OneDecimalPerNumber(input)
    {
      e := AppendToExpression(input, token);
      if PrefixesBalanced(input) {
        AppendKeepsBalance(input, token);
      }
      if OneDecimalPerNumber(input) {
        AppendKeepsOneDecimal(input, token);
      }
      if e.NewValue? {
        input := e.value;
      }
    }

    /** The button's `toggleFavorite(item.timestamp)`.  The input is never
        changed. */
    method ToggleStar(timestamp: int)
      modifies this
      ensures history == ToggleFavorite(old(history), timestamp)
      ensures input == old(input)
    {
      history := ToggleFavorite(history, timestamp);
    }

    /** What the page shows as the history list. */
    function Display(): (r: seq<Entry>)
      reads this
      ensures Sorted(r)
      ensures multiset(r) == multiset(history)
    {
      SortForDisplay(history)
    }
  }
}
