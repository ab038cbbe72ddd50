/**
 The player: a name and two counters that only ever grow by one.
 */
module Players {

  datatype Player = Player(name: string, attempts: nat, hintsUsed: nat)

  /** A new player has made no attempts and used no hints. */
  function NewPlayer(name: string): (p: Player)
    ensures p.name == name && p.attempts == 0 && p.hintsUsed == 0
  {
    Player(name, 0, 0)
  }

  /** `q` is a later state of player `p`: same name, neither counter lower. */
  predicate Succeeds(p: Player, q: Player)
  {
    q.name == p.name && p.attempts <= q.attempts && p.hintsUsed <= q.hintsUsed
  }

  /** updateAttempts: one more attempt, nothing else changes. */
  function UpdateAttempts(p: Player): (q: Player)
    ensures q.attempts == p.attempts + 1
    ensures q.hintsUsed == p.hintsUsed && q.name == p.name
    ensures Succeeds(p, q) && q != p
  {
    p.(attempts := p.attempts + 1)
  }

  /** useHint: one more hint, nothing else changes. */
  function UseHint(p: Player): (q: Player)
    ensures q.hintsUsed == p.hintsUsed + 1
    ensures q.attempts == p.attempts && q.name == p.name
    ensures Succeeds(p, q) && q != p
  {
    p.(hintsUsed := p.hintsUsed + 1)
  }

  /** The two ways the game changes a player. */
  datatype Update = Attempt | Hint

  /** Applies updateAttempts or useHint for each step in turn. */
  function ApplyAll(p: Player, steps: seq<Update>): Player
    decreases |steps|
  {
    if |steps| == 0 then p
    else
      var q := if steps[0] == Attempt then UpdateAttempts(p) else UseHint(p);
      ApplyAll(q, steps[1..])
  }

  /** Any run of updates never lowers a counter, and each counter grows by
      exactly the number of its own updates. */
  lemma {:induction false} ApplyAllCounts(p: Player, steps: seq<Update>)
    decreases |steps|
    ensures Succeeds(p, ApplyAll(p, steps))
    ensures ApplyAll(p, steps).attempts == p.attempts + multiset(steps)[Attempt]
    ensures ApplyAll(p, steps).hintsUsed == p.hintsUsed + multiset(steps)[Hint]
  {
    if |steps| > 0 {
      var q := if steps[0] == Attempt then UpdateAttempts(p) else UseHint(p);
      ApplyAllCounts(q, steps[1..]);
      assert steps == [steps[0]] + steps[1..];
      assert multiset(steps) == multiset([steps[0]]) + multiset(steps[1..]);
    }
  }
}
