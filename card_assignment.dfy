/**
 * The deck generator (backend/Domain/CardAssignment.cs): 25 words drawn
 * from the vocabulary, 9/8 red and blue labels, 7 neutral, 1 assassin,
 * shuffled in place with Fisher-Yates and paired with the words by position.
 *
 * The randomness is a parameter: `order` is the permutation of vocabulary
 * positions that `OrderBy(_ => random.Next())` produces, `coin` is
 * `random.Next(2)`, and `draws[i]` is the `random.Next(i + 1)` drawn when the
 * shuffle visits position i.
 */
module CardAssignment {
  import opened Cards
  import opened Text

  /** The Bulgarian vocabulary, one source line per chunk. */
  const WordList: seq<string> :=
      ["РЕКА", "МОРЕ", "ГОРА", "ПЛАНИНА", "ГРАД"]
    + ["ЗАМЪК", "КЛАДЕНЕЦ", "МОСТ", "ПЪТ", "ПОЛЕТ"]
    + ["ЗВЕЗДА", "ЛУНА", "СЛЪНЦЕ", "ОБЛАК", "ВЯТЪР"]
    + ["ВОДА", "ЛЕД", "ОГЪН", "ЗЕМЯ", "КАМЪК"]
    + ["ДЪРВО", "ЦВЕТЯ", "ТРЕВA", "ПТИЦА", "РИБА"]
    + ["КОШКА", "КУЧЕ", "ЛЪВСКИ", "ТИГЪР", "МЕЧКА"]
    + ["СОБОР", "КРАЙНЯ", "КНИГА", "ПИСМО", "ЛИСТ"]
    + ["ДНЕВНИК", "ИСТОРИЯ", "ВОЙНА", "МИР", "СПРАВЕДЛИВОСТ"]
    + ["ЛЮБОВ", "НЕНАВИСТ", "НАДЕЖДА", "ОТЧАЯНИЕ", "СТРАХ"]
    + ["СМЕЛОСТ", "ВЕРНОСТ", "ПРЕДАТЕЛСТВО", "ДОСТОЙНСТВО", "ЧЕСТЬ"]
    + ["ЩАСТИЕ", "ПЕЧАЛ", "ГНЕВ", "УСМИВКА", "СМЕХ"]
    + ["ЖАЛОСТ", "ГОРДОСТ", "СМИРЕНИЕ", "ЗАВИСТ", "БЛАГОДАРНОСТ"]
    + ["РАБОТА", "ОТДИХ", "ТАНЦ", "ПЕЕНЕ", "МУЗИКА"]
    + ["ЖИВОПИС", "РЕЗБА", "ТЕАТЪР", "КИНО", "ЛИТЕРАТУРА"]
    + ["НАУКА", "ФИЛОСОФИЯ", "МАТЕМАТИКА", "ФИЗИКА", "ХИМИЯ"]
    + ["БИОЛОГИЯ", "ГЕОГРАФИЯ", "ИСТОРИЯ", "АСТРОНОМИЯ", "ГЕОЛОГИЯ"]
    + ["АЛХИМИЯ", "МАГИЯ", "ТАЙНА", "МИСТЕРИЯ", "ЧУДО"]
    + ["СКАЗКА", "ЛЕГЕНДА", "МИТ", "БАСН", "ПАРИТКА"]
    + ["ВЪЗРАСТНОСТ", "МЛАДОСТ", "ДЕТСТВО", "СТАРОСТ", "СМЪРТ"]
    + ["РАЖДАНЕ", "КРЕЩАНЕ", "СВАТБА", "ВЕНЧАН", "РАЗВОД"]
    + ["СЕМЕЙСТВО", "КЛАН", "ИМПЕРИЯ", "ЦАРСТВО", "КНЯЖЕСТВО"]
    + ["ГЕРЦОГСТВО", "ГРАФСТВО", "БАРОНСТВО", "СВОБОДА", "РОБСТВО"]
    + ["КРАЙЕЧНИНА", "СЕЛИЩЕ", "ХУТОР", "ЗЕМЯ", "ВЛАДЕТЕЛСТВО"]

  /** The result of `Generate`: the cards and whether red starts (and holds 9). */
  datatype Assignment = Assignment(cards: seq<Card>, startsWithRed: bool)

  /** `n` copies of one label. */
  function Repeat(t: CardTeam, n: nat): (r: seq<CardTeam>)
    ensures |r| == n
  {
    seq(n, _ => t)
  }

  /** The label list before the shuffle, in the order the three loops and the final add build it. */
  function Labels(startsWithRed: bool): seq<CardTeam>
  {
    Repeat(Red, if startsWithRed then 9 else 8)
      + Repeat(Blue, if startsWithRed then 8 else 9)
      + Repeat(Neutral, 7)
      + [Assassin]
  }

  /** `order` is a permutation of the positions 0..n-1. */
  predicate IsOrdering(order: seq<nat>, n: nat)
  {
    && |order| == n
    && (forall i :: 0 <= i < n ==> order[i] < n)
    && (forall i, j :: 0 <= i < j < n ==> order[i] != order[j])
  }

  /** Swap indices for the shuffle: the one used at position k lies in [0, k]. */
  predicate ValidDraws(draws: seq<nat>, n: nat)
  {
    |draws| == n && forall k :: 0 <= k < n ==> draws[k] <= k
  }

  /** `(s[i], s[j]) = (s[j], s[i])`. */
  function Swap(s: seq<CardTeam>, i: nat, j: nat): (r: seq<CardTeam>)
    requires i < |s| && j < |s|
    ensures |r| == |s|
  {
    s[i := s[j]][j := s[i]]
  }

  /** The Fisher-Yates shuffle from position `i` down to position 1. */
  function FisherYates(s: seq<CardTeam>, draws: seq<nat>, i: int): (r: seq<CardTeam>)
    requires ValidDraws(draws, |s|) && i < |s|
    ensures |r| == |s|
    decreases i
  {
    if i <= 0 then s else FisherYates(Swap(s, i, draws[i]), draws, i - 1)
  }

  /** `WordList.OrderBy(_ => random.Next()).Take(25)`. */
  function SelectedWords(words: seq<string>, order: seq<nat>): (r: seq<string>)
    requires |words| >= 25 && IsOrdering(order, |words|)
  {
    seq(25, i requires 0 <= i < 25 => words[order[i]])
  }

  /** The card built for one word and one label. */
  function NewCard(word: string, team: CardTeam): Card
  {
    Card(word, team, false, team == Assassin)
  }

  /** What `Generate` returns for the given random choices. */
  function Deck(words: seq<string>, order: seq<nat>, coin: nat, draws: seq<nat>): Assignment
    requires |words| >= 25 && IsOrdering(order, |words|) && coin < 2 && ValidDraws(draws, 25)
  {
    var startsWithRed := coin == 0;
    var labels := FisherYates(Labels(startsWithRed), draws, 24);
    var selected := SelectedWords(words, order);
    Assignment(seq(25, i requires 0 <= i < 25 => NewCard(selected[i], labels[i])), startsWithRed)
  }

  /** The shuffle loop, in place on the label list. */
  method Shuffle(a: array<CardTeam>, draws: seq<nat>)
    requires ValidDraws(draws, a.Length)
    modifies a
    ensures a[..] == FisherYates(old(a[..]), draws, a.Length - 1)
    ensures multiset(a[..]) == multiset(old(a[..]))
  {
    var i := a.Length - 1;
    while i > 0
      invariant -1 <= i < a.Length
      invariant FisherYates(a[..], draws, i) == FisherYates(old(a[..]), draws, a.Length - 1)
    {
      var j := draws[i];
      ghost var before := a[..];
      var t := a[i];
      a[i] := a[j];
      a[j] := t;
      assert a[..] == Swap(before, i, j);
      i := i - 1;
    }
    FisherYatesPermutes(old(a[..]), draws, a.Length - 1);
  }

  /** The three counting loops and the final add that build the label list. */
  method BuildLabels(startsWithRed: bool) returns (teamAssignments: array<CardTeam>)
    ensures fresh(teamAssignments)
    ensures teamAssignments.Length == 25
    ensures teamAssignments[..] == Labels(startsWithRed)
  {
    var redCount := if startsWithRed then 9 else 8;
    var blueCount := if startsWithRed then 8 else 9;
    var neutralCount := 7;

    // The list's elements are teamAssignments[..count]; the array is its capacity.
    teamAssignments := new CardTeam[25];
    var count := 0;
    for i := 0 to redCount
      invariant count == i
      invariant teamAssignments[..count] == Repeat(Red, i)
    {
      teamAssignments[count] := Red;
      count := count + 1;
    }
    for i := 0 to blueCount
      invariant count == redCount + i
      invariant teamAssignments[..count] == Repeat(Red, redCount) + Repeat(Blue, i)
    {
      teamAssignments[count] := Blue;
      count := count + 1;
    }
    for i := 0 to neutralCount
      invariant count == redCount + blueCount + i
      invariant teamAssignments[..count] == Repeat(Red, redCount) + Repeat(Blue, blueCount) + Repeat(Neutral, i)
    {
      teamAssignments[count] := Neutral;
      count := count + 1;
    }
    teamAssignments[count] := Assassin;
    count := count + 1;
    assert teamAssignments[..] == teamAssignments[..count];
  }

  /** The loop that pairs the k-th selected word with the k-th shuffled label. */
  method BuildCards(selectedWords: seq<string>, teamAssignments: array<CardTeam>) returns (cards: seq<Card>)
    requires |selectedWords| == teamAssignments.Length
    ensures |cards| == |selectedWords|
    ensures forall k :: 0 <= k < |cards| ==> cards[k] == NewCard(selectedWords[k], teamAssignments[k])
  {
    cards := [];
    for i := 0 to |selectedWords|
      invariant |cards| == i
      invariant forall k :: 0 <= k < i ==> cards[k] == NewCard(selectedWords[k], teamAssignments[k])
    {
      cards := cards + [Card(selectedWords[i], teamAssignments[i], false, teamAssignments[i] == Assassin)];
    }
  }

  /** `CardAssignment.Generate`, with its random choices as parameters. */
  method Generate(words: seq<string>, order: seq<nat>, coin: nat, draws: seq<nat>) returns (asg: Assignment)
    requires |words| >= 25 && IsOrdering(order, |words|) && coin < 2 && ValidDraws(draws, 25)
    ensures asg == Deck(words, order, coin, draws)
  {
    var selectedWords := SelectedWords(words, order);
    var startsWithRed := coin == 0;
    var teamAssignments := BuildLabels(startsWithRed);
    Shuffle(teamAssignments, draws);
    var cards := BuildCards(selectedWords, teamAssignments);
    DeckCards(words, order, coin, draws);
    asg := Assignment(cards, startsWithRed);
  }

  lemma DeckCards(words: seq<string>, order: seq<nat>, coin: nat, draws: seq<nat>)
    requires |words| >= 25 && IsOrdering(order, |words|) && coin < 2 && ValidDraws(draws, 25)
    ensures var d := Deck(words, order, coin, draws);
      && d.startsWithRed == (coin == 0)
      && |d.cards| == 25
      && forall k :: 0 <= k < 25 ==>
           d.cards[k] == NewCard(SelectedWords(words, order)[k], FisherYates(Labels(coin == 0), draws, 24)[k])
  {
  }

  // ----- Properties of the generator -----

  lemma {:induction false} RepeatCount(t: CardTeam, n: nat, u: CardTeam)
    ensures multiset(Repeat(t, n))[u] == if u == t then n else 0
  {
    if n > 0 {
      assert Repeat(t, n) == Repeat(t, n - 1) + [t];
      RepeatCount(t, n - 1, u);
    }
  }

  /** The label list has 9 cards of the starting colour, 8 of the other, 7 neutral and 1 assassin. */
  lemma LabelCounts(startsWithRed: bool)
    ensures |Labels(startsWithRed)| == 25
    ensures multiset(Labels(startsWithRed))[Red] == if startsWithRed then 9 else 8
    ensures multiset(Labels(startsWithRed))[Blue] == if startsWithRed then 8 else 9
    ensures multiset(Labels(startsWithRed))[Neutral] == 7
    ensures multiset(Labels(startsWithRed))[Assassin] == 1
  {
    var r, b := if startsWithRed then 9 else 8, if startsWithRed then 8 else 9;
    forall u: CardTeam
      ensures multiset(Labels(startsWithRed))[u]
        == multiset(Repeat(Red, r))[u] + multiset(Repeat(Blue, b))[u]
         + multiset(Repeat(Neutral, 7))[u] + multiset([Assassin])[u]
    {
    }
    RepeatCount(Red, r, Red); RepeatCount(Blue, b, Red); RepeatCount(Neutral, 7, Red);
    RepeatCount(Red, r, Blue); RepeatCount(Blue, b, Blue); RepeatCount(Neutral, 7, Blue);
    RepeatCount(Red, r, Neutral); RepeatCount(Blue, b, Neutral); RepeatCount(Neutral, 7, Neutral);
    RepeatCount(Red, r, Assassin); RepeatCount(Blue, b, Assassin); RepeatCount(Neutral, 7, Assassin);
  }

  lemma SwapPermutes(s: seq<CardTeam>, i: nat, j: nat)
    requires i < |s| && j < |s|
    ensures multiset(Swap(s, i, j)) == multiset(s)
  {
    if i != j {
      var t := s[i := s[j]];
      assert t[j] == s[j];
      assert Swap(s, i, j) == t[j := s[i]];
      assert multiset(t) == multiset(s) - multiset{s[i]} + multiset{s[j]};
      assert multiset(t[j := s[i]]) == multiset(t) - multiset{s[j]} + multiset{s[i]};
    }
  }

  /** Every swap exchanges two labels of one list, so the shuffle keeps the label multiset. */
  lemma {:induction false} FisherYatesPermutes(s: seq<CardTeam>, draws: seq<nat>, i: int)
    requires ValidDraws(draws, |s|) && i < |s|
    ensures multiset(FisherYates(s, draws, i)) == multiset(s)
    decreases i
  {
    if i > 0 {
      SwapPermutes(s, i, draws[i]);
      FisherYatesPermutes(Swap(s, i, draws[i]), draws, i - 1);
    }
  }

  /** The deck's labels are the shuffled label list, position by position. */
  lemma DeckTeams(words: seq<string>, order: seq<nat>, coin: nat, draws: seq<nat>)
    requires |words| >= 25 && IsOrdering(order, |words|) && coin < 2 && ValidDraws(draws, 25)
    ensures Teams(Deck(words, order, coin, draws).cards) == FisherYates(Labels(coin == 0), draws, 24)
  {
  }

  /**
   * A generated deck: 25 unrevealed cards, `IsAssassin` exactly on the
   * assassin, card i carrying the word at vocabulary position order[i], and
   * the labels a permutation of the label list chosen by the same bit that is
   * returned as `StartsWithRed`.
   */
  lemma DeckShape(words: seq<string>, order: seq<nat>, coin: nat, draws: seq<nat>)
    requires |words| >= 25 && IsOrdering(order, |words|) && coin < 2 && ValidDraws(draws, 25)
    ensures var d := Deck(words, order, coin, draws);
      && |d.cards| == 25
      && d.startsWithRed == (coin == 0)
      && (forall i :: 0 <= i < 25 ==> !d.cards[i].isRevealed)
      && (forall i :: 0 <= i < 25 ==> (d.cards[i].isAssassin <==> d.cards[i].team == Assassin))
      && (forall i :: 0 <= i < 25 ==> d.cards[i].word == words[order[i]])
      && multiset(Teams(d.cards)) == multiset(Labels(d.startsWithRed))
  {
    DeckTeams(words, order, coin, draws);
    FisherYatesPermutes(Labels(coin == 0), draws, 24);
  }

  /** The deck's label counts: 9 for the starting colour, 8 for the other, 7 neutral, 1 assassin. */
  lemma DeckCounts(words: seq<string>, order: seq<nat>, coin: nat, draws: seq<nat>)
    requires |words| >= 25 && IsOrdering(order, |words|) && coin < 2 && ValidDraws(draws, 25)
    ensures var d := Deck(words, order, coin, draws);
      && TeamCount(d.cards, Red) == (if coin == 0 then 9 else 8)
      && TeamCount(d.cards, Blue) == (if coin == 0 then 8 else 9)
      && TeamCount(d.cards, Neutral) == 7
      && TeamCount(d.cards, Assassin) == 1
  {
    DeckShape(words, order, coin, draws);
    LabelCounts(coin == 0);
    var d := Deck(words, order, coin, draws);
    TeamCountIsMultiplicity(d.cards, Red);
    TeamCountIsMultiplicity(d.cards, Blue);
    TeamCountIsMultiplicity(d.cards, Neutral);
    TeamCountIsMultiplicity(d.cards, Assassin);
  }

  // ----- The repeated vocabulary entries -----

  /** The vocabulary has 115 entries. */
  lemma WordListLength()
    ensures |WordList| == 115
  {
  }

  /** The vocabulary has 115 entries and two of its words occur twice. */
  lemma WordListRepeats()
    ensures |WordList| == 115
    ensures WordList[36] == WordList[77] == "ИСТОРИЯ"
    ensures WordList[18] == WordList[113] == "ЗЕМЯ"
  {
  }

  /** Any ordering that puts the two "ИСТОРИЯ" positions first deals that word on two cards. */
  lemma DeckCanRepeatAWord(order: seq<nat>, coin: nat, draws: seq<nat>)
    requires IsOrdering(order, |WordList|) && coin < 2 && ValidDraws(draws, 25)
    requires order[0] == 36 && order[1] == 77
    ensures var d := Deck(WordList, order, coin, draws);
      d.cards[0].word == d.cards[1].word
  {
    WordListRepeats();
  }

  /** No two entries are equal under the ordinal case-insensitive comparison. */
  ghost predicate FoldDistinct(words: seq<string>)
  {
    forall i, j :: 0 <= i < j < |words| ==> Fold(words[i]) != Fold(words[j])
  }

  /** Some entry of `words` folds to `f`. */
  predicate HasFold(words: seq<string>, f: string)
  {
    exists k :: 0 <= k < |words| && Fold(words[k]) == f
  }

  /**
   * The vocabulary with every later case-insensitive repeat removed
   * (`WordList.Distinct(StringComparer.OrdinalIgnoreCase)`): the first
   * occurrence of each word stays, in order.
   */
  function Dedupe(words: seq<string>): (r: seq<string>)
    ensures FoldDistinct(r)
    ensures forall k :: 0 <= k < |r| ==> r[k] in words
    ensures forall k :: 0 <= k < |words| ==> HasFold(r, Fold(words[k]))
    decreases |words|
  {
    if |words| == 0 then []
    else
      var rest := Dedupe(words[..|words| - 1]);
      var last := words[|words| - 1];
      assert forall k :: 0 <= k < |rest| ==> rest[k] in words by {
        forall k | 0 <= k < |rest| ensures rest[k] in words {
          assert rest[k] in words[..|words| - 1];
        }
      }
      assert forall k :: 0 <= k < |words| - 1 ==> HasFold(rest, Fold(words[k])) by {
        forall k | 0 <= k < |words| - 1 ensures HasFold(rest, Fold(words[k])) {
          assert words[k] == words[..|words| - 1][k];
        }
      }
      if HasFold(rest, Fold(last)) then rest
      else
        var r := rest + [last];
        assert forall a :: 0 <= a < |rest| ==> Fold(rest[a]) != Fold(last);
        assert FoldDistinct(r) by {
          forall a, b | 0 <= a < b < |r| ensures Fold(r[a]) != Fold(r[b]) {
            if b == |rest| { assert r[b] == last && r[a] == rest[a]; }
          }
        }
        assert forall k :: 0 <= k < |r| ==> r[k] in words by {
          forall k | 0 <= k < |r| ensures r[k] in words {
            if k == |rest| { assert words[|words| - 1] == last; }
          }
        }
        assert HasFold(r, Fold(last)) by { assert Fold(r[|rest|]) == Fold(last); }
        assert forall k :: 0 <= k < |words| - 1 ==> HasFold(r, Fold(words[k])) by {
          forall k | 0 <= k < |words| - 1 ensures HasFold(r, Fold(words[k])) {
            var m :| 0 <= m < |rest| && Fold(rest[m]) == Fold(words[k]);
            assert Fold(r[m]) == Fold(words[k]);
          }
        }
        r
  }

  /** Dealt from a vocabulary without case-insensitive repeats, no two cards share a word. */
  lemma DistinctVocabularyDealsDistinctWords(words: seq<string>, order: seq<nat>, coin: nat, draws: seq<nat>)
    requires |words| >= 25 && IsOrdering(order, |words|) && coin < 2 && ValidDraws(draws, 25)
    requires FoldDistinct(words)
    ensures var d := Deck(words, order, coin, draws);
      forall i, j :: 0 <= i < j < 25 ==> Fold(d.cards[i].word) != Fold(d.cards[j].word)
  {
    var d := Deck(words, order, coin, draws);
    forall i, j | 0 <= i < j < 25 ensures Fold(d.cards[i].word) != Fold(d.cards[j].word) {
      assert d.cards[i].word == words[order[i]] && d.cards[j].word == words[order[j]];
      if order[i] < order[j] {
      } else {
        assert order[j] < order[i];
      }
    }
  }
}
