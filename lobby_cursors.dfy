/**
 * The lobby's word cursors (frontend/src/hooks/useSignalRLobby.ts): which
 * word each player hovers over and which words each player has selected,
 * kept per player id and updated by the hub's events.
 */
module LobbyCursors {
  import opened Wrappers

  /** The hover map: player id to the hovered word, or null. */
  type HoverCursors = map<string, Option<string>>

  /** The selection map: player id to the selected words, in selection order. */
  type SelectionCursors = map<string, seq<string>>

  /** `delete next[playerId]` on a copy: the entry goes, every other entry stays. */
  function Without<V>(m: map<string, V>, playerId: string): (r: map<string, V>)
    ensures playerId !in r
    ensures forall k :: k != playerId ==> (k in r <==> k in m)
    ensures forall k :: k in r ==> r[k] == m[k]
  {
    m - {playerId}
  }

  /** `handlePlayerLeft`: both maps lose the player's entry. */
  function PlayerLeft(hover: HoverCursors, selection: SelectionCursors, playerId: string)
    : (HoverCursors, SelectionCursors)
  {
    (Without(hover, playerId), Without(selection, playerId))
  }

  /** `handlePlayerWordHoverUpdated`. */
  function HoverUpdated(hover: HoverCursors, playerId: string, word: Option<string>): (r: HoverCursors)
    ensures playerId in r && r[playerId] == word
    ensures forall k :: k != playerId ==> (k in r <==> k in hover)
    ensures forall k :: k != playerId && k in r ==> r[k] == hover[k]
  {
    hover[playerId := word]
  }

  /** `current.filter((w) => w !== word)`. */
  function Filter(words: seq<string>, word: string): (r: seq<string>)
    ensures word !in r
    ensures forall w :: w in r ==> w in words
    ensures word !in words ==> r == words
  {
    if |words| == 0 then []
    else (if words[0] == word then [] else [words[0]]) + Filter(words[1..], word)
  }

  /** The player's list, `previous[playerId] ?? []`. */
  function Current(selection: SelectionCursors, playerId: string): seq<string>
  {
    if playerId in selection then selection[playerId] else []
  }

  /** `handlePlayerWordSelectionUpdated`. */
  function SelectionUpdated(selection: SelectionCursors, playerId: string, word: string, isSelected: bool)
    : SelectionCursors
  {
    var current := Current(selection, playerId);
    if isSelected then
      if word in current then selection else selection[playerId := current + [word]]
    else selection[playerId := Filter(current, word)]
  }

  // ----- Properties -----

  /** A player that leaves has no hover or selection entry left; everyone else keeps theirs. */
  lemma PlayerLeftRemovesOnlyThatPlayer(hover: HoverCursors, selection: SelectionCursors, playerId: string)
    ensures var (h, s) := PlayerLeft(hover, selection, playerId);
      && playerId !in h && playerId !in s
      && (forall k :: k != playerId ==> (k in h <==> k in hover) && (k in s <==> k in selection))
      && (forall k :: k in h ==> h[k] == hover[k])
      && (forall k :: k in s ==> s[k] == selection[k])
  {
  }

  /** Filtering keeps the other words in order: it commutes with concatenation. */
  lemma {:induction false} FilterAppend(a: seq<string>, b: seq<string>, word: string)
    ensures Filter(a + b, word) == Filter(a, word) + Filter(b, word)
  {
    if |a| > 0 {
      assert (a + b)[0] == a[0] && (a + b)[1..] == a[1..] + b;
      FilterAppend(a[1..], b, word);
      assert Filter(a + b, word) == (if a[0] == word then [] else [a[0]]) + Filter(a[1..] + b, word);
    } else {
      assert a + b == b;
    }
  }

  /** Filtering drops every copy of the word and no other word. */
  lemma {:induction false} FilterCounts(words: seq<string>, word: string)
    ensures multiset(Filter(words, word)) == multiset(words)[word := 0]
  {
    if |words| > 0 {
      assert words == [words[0]] + words[1..];
      FilterCounts(words[1..], word);
    }
  }

  /**
   * Selecting a word adds it at the end of the player's list unless it is
   * already there, in which case the map is returned as it was; a player
   * without an entry gets `[word]`. No other player's list changes.
   */
  lemma SelectAppendsOnce(selection: SelectionCursors, playerId: string, word: string)
    ensures var r := SelectionUpdated(selection, playerId, word, true);
      && (word in Current(selection, playerId) ==> r == selection)
      && (word !in Current(selection, playerId) ==> r[playerId] == Current(selection, playerId) + [word])
      && (playerId !in selection ==> r[playerId] == [word])
      && (forall k :: k != playerId ==> (k in r <==> k in selection) && (k in r ==> r[k] == selection[k]))
  {
  }

  /** Selecting twice is selecting once, and so is deselecting. */
  lemma SelectionIdempotent(selection: SelectionCursors, playerId: string, word: string, isSelected: bool)
    ensures var once := SelectionUpdated(selection, playerId, word, isSelected);
      SelectionUpdated(once, playerId, word, isSelected) == once
  {
    if !isSelected {
      var once := SelectionUpdated(selection, playerId, word, false);
      assert Filter(Current(once, playerId), word) == Current(once, playerId);
    }
  }

  /**
   * Deselecting removes every occurrence of the word from the player's list,
   * keeps the other words with their counts, and touches no other player.
   */
  lemma DeselectRemovesAll(selection: SelectionCursors, playerId: string, word: string)
    ensures var r := SelectionUpdated(selection, playerId, word, false);
      && playerId in r && word !in r[playerId]
      && multiset(r[playerId]) == multiset(Current(selection, playerId))[word := 0]
      && (forall k :: k != playerId ==> (k in r <==> k in selection) && (k in r ==> r[k] == selection[k]))
  {
    FilterCounts(Current(selection, playerId), word);
  }

  /** Selecting a new word and deselecting it again gives back the player's list. */
  lemma SelectThenDeselect(selection: SelectionCursors, playerId: string, word: string)
    requires word !in Current(selection, playerId)
    ensures SelectionUpdated(SelectionUpdated(selection, playerId, word, true), playerId, word, false)[playerId]
            == Current(selection, playerId)
  {
    var current := Current(selection, playerId);
    FilterAppend(current, [word], word);
    assert Filter([word], word) == [] + Filter([], word);
  }

  ghost predicate NoDuplicates(words: seq<string>)
  {
    forall i, j :: 0 <= i < j < |words| ==> words[i] != words[j]
  }

  lemma {:induction false} FilterKeepsNoDuplicates(words: seq<string>, word: string)
    requires NoDuplicates(words)
    ensures NoDuplicates(Filter(words, word))
  {
    if |words| > 0 {
      FilterKeepsNoDuplicates(words[1..], word);
      var rest := Filter(words[1..], word);
      assert words[0] !in words[1..];
    }
  }

  /** No selection event ever puts a word twice into a player's list. */
  lemma SelectionKeepsNoDuplicates(selection: SelectionCursors, playerId: string, word: string, isSelected: bool)
    requires forall k :: k in selection ==> NoDuplicates(selection[k])
    ensures var r := SelectionUpdated(selection, playerId, word, isSelected);
      forall k :: k in r ==> NoDuplicates(r[k])
  {
    var current := Current(selection, playerId);
    if !isSelected {
      FilterKeepsNoDuplicates(current, word);
    }
  }
}
