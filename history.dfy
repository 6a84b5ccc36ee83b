/** The history of app.js: the list of past evaluations, newest first, that the
    page keeps, caps, marks as favourite and sorts for display. */
module History {

  /** One evaluation: the trimmed expression, its value, the time it was made
      in milliseconds, and whether the user starred it. */
  datatype Entry = Entry(expression: string, result: real, timestamp: int, favorite: bool)

  /** How many entries the history keeps, and how many it saves. */
  const Limit: nat := 30

  /** `[entry, ...history].slice(0, 30)`: the new entry first, then as many of the
      old entries, newest first, as leave at most thirty in all. */
  function Prepend(entry: Entry, history: seq<Entry>): (r: seq<Entry>)
    ensures |r| == if |history| < Limit then |history| + 1 else Limit
    ensures r[0] == entry && r[1..] == history[..|r| - 1]
  {
    var all := [entry] + history;
    if |all| <= Limit then all else all[..Limit]
  }

  /** A history of at most thirty entries stays at most thirty long, and one that
      was longer is cut down to thirty. */
  lemma PrependCapped(entry: Entry, history: seq<Entry>)
    ensures |Prepend(entry, history)| <= Limit
    ensures |history| < Limit ==> Prepend(entry, history) == [entry] + history
  {
  }

  /** `toggleFavorite`: every entry with this timestamp has its star flipped. */
  function ToggleFavorite(history: seq<Entry>, timestamp: int): (r: seq<Entry>)
    ensures |r| == |history|
    ensures forall k :: 0 <= k < |r| ==>
      r[k] == if history[k].timestamp == timestamp then history[k].(favorite := !history[k].favorite) else history[k]
  {
    if history == [] then []
    else
      var e := history[0];
      [if e.timestamp == timestamp then e.(favorite := !e.favorite) else e] + ToggleFavorite(history[1..], timestamp)
  }

  /** Toggling changes nothing but stars: expressions, values and timestamps
      stay, in the same order. */
  lemma ToggleKeepsEntries(history: seq<Entry>, timestamp: int)
    ensures var r := ToggleFavorite(history, timestamp);
            forall k :: 0 <= k < |r| ==>
              && r[k].expression == history[k].expression && r[k].result == history[k].result
              && r[k].timestamp == history[k].timestamp
              && (r[k].favorite != history[k].favorite <==> history[k].timestamp == timestamp)
  {
  }

  /** Toggling the same timestamp twice gives the history back. */
  lemma ToggleTwice(history: seq<Entry>, timestamp: int)
    ensures ToggleFavorite(ToggleFavorite(history, timestamp), timestamp) == history
  {
    var once := ToggleFavorite(history, timestamp);
    var twice := ToggleFavorite(once, timestamp);
    assert forall k :: 0 <= k < |history| ==> twice[k] == history[k];
  }

  // ---------------------------------------------------------------------------
  // The display order

  /** The comparator of `renderHistory`: starred entries first, and newer entries
      first among equals; a negative value puts `a` before `b`. */
  function Compare(a: Entry, b: Entry): int
  {
    var byFavorite := (if b.favorite then 1 else 0) - (if a.favorite then 1 else 0);
    if byFavorite != 0 then byFavorite else b.timestamp - a.timestamp
  }

  /** What the comparator means: `a` may come before `b` exactly when `a` is
      starred and `b` is not, or both are alike and `a` is not older. */
  lemma CompareMeaning(a: Entry, b: Entry)
    ensures Compare(a, b) <= 0 <==> (a.favorite && !b.favorite) || (a.favorite == b.favorite && a.timestamp >= b.timestamp)
    ensures Compare(a, b) == -Compare(b, a)
  {
  }

  /** `a` may come before `b` in the display. */
  predicate Precedes(a: Entry, b: Entry)
  {
    Compare(a, b) <= 0
  }

  /** The comparator orders consistently, so that a sort by it is well defined. */
  lemma PrecedesTransitive(a: Entry, b: Entry, c: Entry)
    requires Precedes(a, b) && Precedes(b, c)
    ensures Precedes(a, c)
  {
    CompareMeaning(a, b);
    CompareMeaning(b, c);
    CompareMeaning(a, c);
  }

  /** Every entry may come before every later one. */
  predicate Sorted(s: seq<Entry>)
  {
    forall i, j :: 0 <= i < j < |s| ==> Precedes(s[i], s[j])
  }

  /** An entry that may precede the head of a sorted list may precede all of it. */
  lemma SortedCons(x: Entry, s: seq<Entry>)
    requires Sorted(s) && (s != [] ==> Precedes(x, s[0]))
    ensures Sorted([x] + s)
  {
    var r := [x] + s;
    forall i, j | 0 <= i < j < |r| ensures Precedes(r[i], r[j]) {
      if i == 0 && j > 1 {
        PrecedesTransitive(x, s[0], s[j - 1]);
      }
    }
  }

  /** `e` put into the sorted `s` before the first entry it may precede. */
  function Insert(e: Entry, s: seq<Entry>): (r: seq<Entry>)
    requires Sorted(s)
    ensures Sorted(r) && multiset(r) == multiset(s) + multiset{e}
    ensures |r| == |s| + 1 && (r[0] == e || (s != [] && r[0] == s[0]))
  {
    if s == [] then [e]
    else if Precedes(e, s[0]) then
      SortedCons(e, s);
      [e] + s
    else
      var rest := Insert(e, s[1..]);
      CompareMeaning(e, s[0]);
      SortedCons(s[0], rest);
      assert s == [s[0]] + s[1..];
      [s[0]] + rest
  }

  /** `[...history].sort(...)`: the history in display order. */
  function SortForDisplay(history: seq<Entry>): (r: seq<Entry>)
    ensures Sorted(r) && multiset(r) == multiset(history)
  {
    if history == [] then []
    else
      assert history == [history[0]] + history[1..];
      Insert(history[0], SortForDisplay(history[1..]))
  }

  /** In display order every starred entry comes before every other one, and
      among entries alike in that the newer come first. */
  lemma DisplayOrder(history: seq<Entry>)
    ensures var r := SortForDisplay(history);
            forall i, j :: 0 <= i < j < |r| ==>
              && (r[j].favorite ==> r[i].favorite)
              && (r[i].favorite == r[j].favorite ==> r[i].timestamp >= r[j].timestamp)
  {
    var r := SortForDisplay(history);
    forall i, j | 0 <= i < j < |r|
      ensures r[j].favorite ==> r[i].favorite
      ensures r[i].favorite == r[j].favorite ==> r[i].timestamp >= r[j].timestamp
    {
      CompareMeaning(r[i], r[j]);
    }
  }
}
