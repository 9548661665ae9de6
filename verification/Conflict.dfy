/** Settling two offline changes to one thing, and any number of them by pairs. */
module Conflict {

  datatype Role = GameMaster | Player

  datatype Winner = A | B

  datatype Contender = Contender(role: Role, reconnectSeq: nat)

  function Resolve(a: Contender, b: Contender): Winner {
    match (a.role, b.role)
    case (GameMaster, Player) => A
    case (Player, GameMaster) => B
    case _ => if a.reconnectSeq <= b.reconnectSeq then A else B
  }

  /** Any way of settling a crowd two at a time. */
  datatype Bracket = Entrant(who: Contender) | Match(left: Bracket, right: Bracket)

  function Champion(t: Bracket): Contender {
    match t
    case Entrant(who) => who
    case Match(left, right) =>
      var a, b := Champion(left), Champion(right);
      if Resolve(a, b) == A then a else b
  }

  function Entrants(t: Bracket): set<Contender> {
    match t
    case Entrant(who) => {who}
    case Match(left, right) => Entrants(left) + Entrants(right)
  }

  /** The one who should win: the earliest Game Master if there is one, else the earliest player. */
  ghost predicate IsRightful(c: Contender, crowd: set<Contender>) {
    && c in crowd
    && (c.role == Player ==> forall o :: o in crowd ==> o.role == Player)
    && (forall o :: o in crowd && o.role == c.role ==> c.reconnectSeq <= o.reconnectSeq)
  }

  /** Swapping the sides swaps the winner, except between a contender and its equal. */
  lemma SwappingSidesSwapsTheWinner(a: Contender, b: Contender)
    ensures Resolve(a, b) != Resolve(b, a) <==> a != b
  {
  }

  /** No three contenders beat each other in a circle. */
  lemma NoCycles(a: Contender, b: Contender, c: Contender)
    requires Resolve(a, b) == A && Resolve(b, c) == A
    ensures Resolve(a, c) == A
  {
  }

  lemma {:induction false} ChampionIsRightful(t: Bracket)
    ensures IsRightful(Champion(t), Entrants(t))
  {
    match t
    case Entrant(_) =>
    case Match(left, right) =>
      ChampionIsRightful(left);
      ChampionIsRightful(right);
  }

  /** However the same crowd is paired off, in whatever order, the same contender wins. */
  lemma PairingDoesNotMatter(s: Bracket, t: Bracket)
    requires Entrants(s) == Entrants(t)
    ensures Champion(s) == Champion(t)
  {
    ChampionIsRightful(s);
    ChampionIsRightful(t);
  }
}
