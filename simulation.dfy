/**
 * The simulation driver of lib/simulation.ts: self-play from the empty board,
 * a random legal move at a time, until the game is complete; every finished
 * play is then learnt by one shared `Brain`.
 *
 * The random choice of move is the nondeterministic `RandomElem` of the
 * utilities, so the driver is proved correct for every sequence of choices.
 */
module Simulations {
  import opened Wrappers
  import opened Utils
  import opened Board
  import opened BrainStore

  // ----- plays -----

  /** `t` starts from the empty board of `size` cells and each state is a legal step from the one before. */
  predicate IsPartialPlay(size: nat, t: seq<GameState>)
  {
    t != [] && t[0] == Empty(size)
    && forall i :: 0 <= i < |t| - 1 ==> IsStep(t[i], t[i + 1])
  }

  /** A finished play: a partial play whose last board is complete. */
  predicate IsPlay(size: nat, t: seq<GameState>)
  {
    IsPartialPlay(size, t) && WellFormed(Tail(t)) && Complete(Tail(t))
  }

  /**
   * State `i` of a play has `size` cells of which exactly `i` are filled, and
   * its marks are balanced: as many X as O, or one X more.
   */
  lemma {:induction false} PlayStateFacts(size: nat, t: seq<GameState>, i: nat)
    requires IsSquare(size) && IsPartialPlay(size, t) && i < |t|
    ensures WellFormed(t[i]) && |t[i].moves| == size
    ensures Filled(t[i]) == i
    ensures Balanced(t[i])
  {
    if i == 0 {
      CountNewGame(size, NoMove);
      CountNewGame(size, Cross);
      CountNewGame(size, Circle);
    } else {
      PlayStateFacts(size, t, i - 1);
      StepInvariants(t[i - 1], t[i]);
    }
  }

  /** A play of `size` cells has at most `size + 1` states, so at most `size` moves. */
  lemma PlayLength(size: nat, t: seq<GameState>)
    requires IsSquare(size) && IsPartialPlay(size, t)
    ensures |t| <= size + 1
  {
    PlayStateFacts(size, t, |t| - 1);
  }

  /** A finished play cannot be continued: no legal step leaves its last board. */
  lemma PlayEnds(size: nat, t: seq<GameState>, u: GameState)
    requires IsPlay(size, t)
    ensures !IsStep(Tail(t), u)
  {
    CompleteIffNoneAvailable(Tail(t));
  }

  /** Extending a partial play by one legal step gives a partial play. */
  lemma PartialPlayStep(size: nat, t: seq<GameState>, u: GameState)
    requires IsPartialPlay(size, t) && IsStep(Tail(t), u)
    ensures IsPartialPlay(size, t + [u])
  {
    var t' := t + [u];
    forall i | 0 <= i < |t'| - 1
      ensures IsStep(t'[i], t'[i + 1])
    {
      if i < |t| - 1 {
        assert t'[i] == t[i] && t'[i + 1] == t[i + 1];
      }
    }
  }

  // ----- the brain after a sequence of plays -----

  /** Each play is non-empty and ends on a square board, as `learn` needs. */
  predicate Learnable(plays: seq<seq<GameState>>)
  {
    forall k :: 0 <= k < |plays| ==> plays[k] != [] && WellFormed(Tail(plays[k]))
  }

  /** The entries after learning the plays one after another, each credited with its own last board's winner. */
  function AfterPlays(c: map<nat, GameStateConfig>, plays: seq<seq<GameState>>): map<nat, GameStateConfig>
    requires Learnable(plays)
  {
    if plays == [] then c
    else
      var p := plays[|plays| - 1];
      Learned(AfterPlays(c, plays[..|plays| - 1]), Ids(p), Winner(Tail(p)))
  }

  /** The key order after learning the plays one after another. */
  function OrderAfterPlays(order: seq<nat>, plays: seq<seq<GameState>>): seq<nat>
  {
    if plays == [] then order
    else Extend(OrderAfterPlays(order, plays[..|plays| - 1]), Ids(plays[|plays| - 1]))
  }

  /** Every one of `plays` is a finished play on `size` cells. */
  predicate AllPlays(size: nat, plays: seq<seq<GameState>>)
  {
    forall k :: 0 <= k < |plays| ==> IsPlay(size, plays[k])
  }

  lemma AllPlaysStep(size: nat, plays: seq<seq<GameState>>, p: seq<GameState>)
    requires AllPlays(size, plays) && IsPlay(size, p)
    ensures AllPlays(size, plays + [p])
  {
    var plays' := plays + [p];
    forall k | 0 <= k < |plays'|
      ensures IsPlay(size, plays'[k])
    {
      if k < |plays| {
        assert plays'[k] == plays[k];
      }
    }
  }

  /** Extending the plays by one learns that one play more. */
  lemma AfterPlaysStep(c: map<nat, GameStateConfig>, order: seq<nat>, plays: seq<seq<GameState>>, p: seq<GameState>)
    requires Learnable(plays) && p != [] && WellFormed(Tail(p))
    ensures Learnable(plays + [p])
    ensures AfterPlays(c, plays + [p]) == Learned(AfterPlays(c, plays), Ids(p), Winner(Tail(p)))
    ensures OrderAfterPlays(order, plays + [p]) == Extend(OrderAfterPlays(order, plays), Ids(p))
  {
    assert (plays + [p])[..|plays|] == plays;
  }

  /** Every board of every play learnt has an entry afterwards, and so has every entry there before. */
  lemma {:induction false} PlaysRemembered(c: map<nat, GameStateConfig>, plays: seq<seq<GameState>>, k: nat, j: nat)
    requires Learnable(plays) && k < |plays| && j < |plays[k]|
    ensures ToId(plays[k][j].moves) in AfterPlays(c, plays)
  {
    var n := |plays|;
    var init := plays[..n - 1];
    var p := plays[n - 1];
    var id := ToId(plays[k][j].moves);
    assert Learnable(init);
    if k == n - 1 {
      assert Ids(p)[j] == id;
      LearnDomain(AfterPlays(c, init), Ids(p), Winner(Tail(p)), id);
    } else {
      assert init[k] == plays[k];
      PlaysRemembered(c, init, k, j);
      LearnDomain(AfterPlays(c, init), Ids(p), Winner(Tail(p)), id);
    }
  }

  // ----- the driver -----

  /**
   * The move loop of `dispatchSimulation`: from the empty board, a random
   * legal move at a time while the board is not complete. The source's
   * `null` check after `applyRandomMove` never fires: a board that is not
   * complete has a free cell.
   */
  method PlayOut(size: nat) returns (gameStates: seq<GameState>)
    requires IsSquare(size)
    ensures IsPlay(size, gameStates)
  {
    var current := Empty(size);
    gameStates := [current];
    PlayStateFacts(size, gameStates, 0);
    while !Complete(current)
      invariant IsPartialPlay(size, gameStates) && current == Tail(gameStates)
      invariant WellFormed(current) && |current.moves| == size
      invariant Filled(current) == |gameStates| - 1
      decreases size - Filled(current)
    {
      NotCompleteHasMove(current);
      var nextState := ApplyRandomMove(current);
      StepInvariants(current, nextState);
      PartialPlayStep(size, gameStates, nextState);
      gameStates := gameStates + [nextState];
      current := Tail(gameStates);
    }
  }


  /** `Simulation`: a board size, a number of plays to run, and the brain every play is learnt by. */
  class Simulation {
    const brain: Brain
    const size: nat
    const simulations: nat

    ghost predicate Valid()
      reads brain, ObjectsOf(brain.memory)
    {
      brain.Valid() && IsSquare(size)
    }

    /** The constructor: a new brain, filled from the saved records when there are some. */
    constructor (size: nat, simulations: nat, saved: Option<seq<GameStateConfig>>)
      requires IsSquare(size)
      ensures Valid()
      ensures this.size == size && this.simulations == simulations
      ensures brain.Contents() == if saved.Some? then Merge(map[], saved.value) else map[]
      ensures brain.order == if saved.Some? then Extend([], RecordIds(saved.value)) else []
    {
      this.size := size;
      this.simulations := simulations;
      brain := new Brain();
      new;
      if saved.Some? {
        brain.Load(saved.value);
      }
    }

    /**
     * `dispatchSimulation`: one play from the empty board, then one `learn`
     * of the whole play (named `play` here).
     */
    method DispatchSimulation() returns (ghost play: seq<GameState>)
      requires Valid()
      modifies brain, ObjectsOf(brain.memory)
      ensures Valid()
      ensures IsPlay(size, play)
      ensures brain.Contents() == Learned(old(brain.Contents()), Ids(play), Winner(Tail(play)))
      ensures brain.order == Extend(old(brain.order), Ids(play))
      ensures forall o :: o in ObjectsOf(brain.memory) ==> o in old(ObjectsOf(brain.memory)) || fresh(o)
    {
      var gameStates := PlayOut(size);
      brain.Learn(gameStates);
      play := gameStates;
    }

    /** `run`: `simulations` plays in sequence (named `added` here), all learnt by the same brain. */
    method Run() returns (ghost added: seq<seq<GameState>>)
      requires Valid()
      modifies brain, ObjectsOf(brain.memory)
      ensures Valid()
      ensures |added| == simulations
      ensures AllPlays(size, added) && Learnable(added)
      ensures brain.Contents() == AfterPlays(old(brain.Contents()), added)
      ensures brain.order == OrderAfterPlays(old(brain.order), added)
    {
      added := [];
      for i := 0 to simulations
        invariant Valid()
        invariant |added| == i
        invariant AllPlays(size, added) && Learnable(added)
        invariant brain.Contents() == AfterPlays(old(brain.Contents()), added)
        invariant brain.order == OrderAfterPlays(old(brain.order), added)
        invariant forall o :: o in ObjectsOf(brain.memory) ==> o in old(ObjectsOf(brain.memory)) || fresh(o)
      {
        ghost var p := DispatchSimulation();
        AfterPlaysStep(old(brain.Contents()), old(brain.order), added, p);
        AllPlaysStep(size, added, p);
        added := added + [p];
      }
    }
  }
}
