/** Cards of the board and their team labels (backend/Domain/Card.cs). */
module Cards {

  /** `CardTeam`, in declaration order. */
  datatype CardTeam = Red | Blue | Neutral | Assassin

  /** The C# ordinal of a `CardTeam` value. */
  function CardTeamOrdinal(t: CardTeam): nat
  {
    match t
    case Red => 0
    case Blue => 1
    case Neutral => 2
    case Assassin => 3
  }

  /** `CardTeam.ToString()`. */
  function CardTeamName(t: CardTeam): string
  {
    match t
    case Red => "Red"
    case Blue => "Blue"
    case Neutral => "Neutral"
    case Assassin => "Assassin"
  }

  /**
   * A card. `Word` and `Team` are init-only; `IsRevealed` and `IsAssassin`
   * are settable, and only the deck generator and the reveal in a guess set
   * them. A card belongs to exactly one game, so it is a value here.
   */
  datatype Card = Card(word: string, team: CardTeam, isRevealed: bool, isAssassin: bool)

  /** The source's `t == CardTeam.Red ? CardTeam.Blue : CardTeam.Red`. */
  function Opponent(t: CardTeam): (o: CardTeam)
    ensures o == Red || o == Blue
    ensures t == Red <==> o == Blue
  {
    if t == Red then Blue else Red
  }

  /** The labels of a card list, in order. */
  function Teams(cards: seq<Card>): (ts: seq<CardTeam>)
    ensures |ts| == |cards|
    ensures forall i :: 0 <= i < |cards| ==> ts[i] == cards[i].team
  {
    seq(|cards|, i requires 0 <= i < |cards| => cards[i].team)
  }

  /** How many cards carry label `t`, revealed or not. */
  function TeamCount(cards: seq<Card>, t: CardTeam): nat
  {
    if |cards| == 0 then 0 else (if cards[0].team == t then 1 else 0) + TeamCount(cards[1..], t)
  }

  /** The count is the multiplicity of the label among the board's teams. */
  lemma {:induction false} TeamCountIsMultiplicity(cards: seq<Card>, t: CardTeam)
    ensures TeamCount(cards, t) == multiset(Teams(cards))[t]
  {
    if |cards| > 0 {
      assert Teams(cards) == [cards[0].team] + Teams(cards[1..]);
      TeamCountIsMultiplicity(cards[1..], t);
    }
  }
}
