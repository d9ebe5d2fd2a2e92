/**
 * The older statistics store of lib/learn.ts. Its `GameStateMemory` is the
 * same class as in lib/brain.ts and is shared; its `Brain` has no `recall`:
 * `learn` looks each id up and inserts a fresh record itself. It meets the
 * same abstract specification as the newer brain.
 */
module LegacyLearn {
  import opened Utils
  import opened Board
  import opened BrainStore

  class Brain {
    var memory: map<nat, GameStateMemory>
    var order: seq<nat>

    ghost predicate Valid()
      reads this, ObjectsOf(memory)
    {
      WellKeyed(memory, order)
    }

    function Contents(): map<nat, GameStateConfig>
      reads this, ObjectsOf(memory)
    {
      ContentsOf(memory)
    }

    constructor ()
      ensures Valid() && Contents() == map[] && order == []
    {
      memory := map[];
      order := [];
    }

    /** The missing-record branch of `learn`: a fresh record set under `id`. */
    method Insert(id: nat) returns (m: GameStateMemory)
      requires Valid() && id !in memory
      modifies this
      ensures Valid()
      ensures Contents() == old(Contents())[id := Fresh(id)]
      ensures order == old(order) + [id]
      ensures memory == old(memory)[id := m] && fresh(m)
      ensures ObjectsOf(memory) == old(ObjectsOf(memory)) + {m}
    {
      ghost var pre := Contents();
      ghost var before := memory;
      m := GameStateMemory.NewEmpty(id);
      ShapedInsert(memory, order, id, m);
      memory := memory[id := m];
      order := order + [id];
      assert ContentsOf(before) == pre;
      ContentsOfUpdate(before, id, m);
    }

    /**
     * The body of `learn`'s `forEach`: look the record up, insert a fresh one
     * when there is none, then boost the counter of outcome `w`.
     */
    method LearnState(id: nat, w: Move)
      requires Valid()
      modifies this, ObjectsOf(memory)
      ensures Valid()
      ensures Contents() == LearnOne(old(Contents()), id, w)
      ensures order == Extend(old(order), [id])
      ensures forall o :: o in ObjectsOf(memory) ==> o in old(ObjectsOf(memory)) || fresh(o)
    {
      assert [id][..0] == [];
      var activeMemory: GameStateMemory;
      if id in memory {
        activeMemory := memory[id];
      } else {
        activeMemory := Insert(id);
      }
      ghost var recalled := Contents();
      assert recalled == Recalled(old(Contents()), id);
      label BeforeBoost:
      if w == Cross {
        var count := activeMemory.BoostX();
      } else if w == Circle {
        var count := activeMemory.BoostO();
      } else {
        var count := activeMemory.BoostDraw();
      }
      forall k | k in memory && k != id
        ensures memory[k].Json() == recalled[k]
      {
        assert memory[k] != activeMemory;
        assert memory[k].Json() == old@BeforeBoost(memory[k].Json());
      }
      BoostedInPlace(memory, order, id, w, recalled);
    }

    /**
     * `learn`: every state of the trajectory gets its record, fresh if need
     * be, and the counter chosen by the last state's winner grows by one.
     */
    method Learn(gameStates: seq<GameState>)
      requires Valid()
      requires |gameStates| > 0 && WellFormed(Tail(gameStates))
      modifies this, ObjectsOf(memory)
      ensures Valid()
      ensures Contents() == Learned(old(Contents()), Ids(gameStates), Winner(Tail(gameStates)))
      ensures order == Extend(old(order), Ids(gameStates))
      ensures forall o :: o in ObjectsOf(memory) ==> o in old(ObjectsOf(memory)) || fresh(o)
    {
      var winner := Winner(Tail(gameStates));
      ghost var ids := Ids(gameStates);
      for i := 0 to |gameStates|
        invariant Valid()
        invariant Contents() == Learned(old(Contents()), ids[..i], winner)
        invariant order == Extend(old(order), ids[..i])
        invariant forall o :: o in ObjectsOf(memory) ==> o in old(ObjectsOf(memory)) || fresh(o)
      {
        LearnedStep(old(Contents()), ids, winner, i);
        ExtendStep(old(order), ids, i);
        LearnState(ToId(gameStates[i].moves), winner);
      }
      assert ids[..|gameStates|] == ids;
    }

    /** The body of `load`'s `forEach`: a new record object set under the record's id. */
    method Store(r: GameStateConfig)
      requires Valid()
      modifies this
      ensures Valid()
      ensures Contents() == old(Contents())[r.gameId := r]
      ensures order == Extend(old(order), [r.gameId])
    {
      assert [r.gameId][..0] == [];
      ghost var pre := Contents();
      ghost var before := memory;
      var m := new GameStateMemory(r);
      if r.gameId !in memory {
        order := order + [r.gameId];
      }
      memory := memory[r.gameId := m];
      assert ContentsOf(before) == pre;
      assert m.Json() == r;
      ContentsOfUpdate(before, r.gameId, m);
    }

    /** The record-merge part of `load`: one entry set per record, in order. */
    method Load(records: seq<GameStateConfig>)
      requires Valid()
      modifies this
      ensures Valid()
      ensures Contents() == Merge(old(Contents()), records)
      ensures order == Extend(old(order), RecordIds(records))
    {
      ghost var ids := RecordIds(records);
      for i := 0 to |records|
        invariant Valid()
        invariant Contents() == Merge(old(Contents()), records[..i])
        invariant order == Extend(old(order), ids[..i])
      {
        MergeStep(old(Contents()), records, i);
        ExtendStep(old(order), ids, i);
        Store(records[i]);
      }
      assert records[..|records|] == records;
      assert ids[..|records|] == ids;
    }
  }
}
