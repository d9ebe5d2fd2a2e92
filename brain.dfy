/**
 * The statistics store of lib/brain.ts: for every game id seen, how often a
 * game through that board ended in an X win, an O win or a draw.
 *
 * The abstract state of a brain is a map from id to record together with the
 * ids in the order they were first inserted (the iteration order of the
 * source's `Map`, which `toJson` follows). The functions in the first part
 * specify every operation on that abstract state; the classes implement them
 * over mutable record objects.
 */
module BrainStore {
  import opened Utils
  import opened Board
  import opened Wrappers

  /** `GameStateConfig`: the counters of one board and its id. */
  datatype GameStateConfig = GameStateConfig(x: nat, o: nat, draw: nat, gameId: nat)

  /** `Predictions`: the share of X wins, O wins and draws. */
  datatype Prediction = Prediction(x: real, o: real, draw: real)

  /** The record `newEmpty(id)` builds: one of each outcome. */
  function Fresh(id: nat): GameStateConfig
  {
    GameStateConfig(1, 1, 1, id)
  }

  function TotalOf(c: GameStateConfig): nat
  {
    c.x + c.o + c.draw
  }

  /**
   * `predictions`: each counter divided by the total. The source divides
   * doubles, so a record whose counters are all zero gives NaN; here that
   * case has no prediction.
   */
  function PredictionsOf(c: GameStateConfig): (p: Option<Prediction>)
    ensures p.None? <==> TotalOf(c) == 0
    ensures p.Some? ==> p.value.x + p.value.o + p.value.draw == 1.0
    ensures p.Some? ==> p.value.x * TotalOf(c) as real == c.x as real
    ensures p.Some? ==> p.value.o * TotalOf(c) as real == c.o as real
    ensures p.Some? ==> p.value.draw * TotalOf(c) as real == c.draw as real
  {
    var t := TotalOf(c) as real;
    if t == 0.0 then None
    else Some(Prediction(c.x as real / t, c.o as real / t, c.draw as real / t))
  }

  /** A record nobody has learnt from yet predicts each outcome with odds one in three. */
  lemma FreshPredictsThirds(id: nat)
    ensures PredictionsOf(Fresh(id)) == Some(Prediction(1.0 / 3.0, 1.0 / 3.0, 1.0 / 3.0))
  {
  }

  // ----- learning, on the abstract map -----

  /** `n` wins credited for outcome `w`: X wins to `x`, O wins to `o`, no winner to `draw`. */
  function Credited(c: GameStateConfig, w: Move, n: nat): (r: GameStateConfig)
    ensures r.gameId == c.gameId && TotalOf(r) == TotalOf(c) + n
    ensures r.x >= c.x && r.o >= c.o && r.draw >= c.draw
  {
    GameStateConfig(
      c.x + (if w == Cross then n else 0),
      c.o + (if w == Circle then n else 0),
      c.draw + (if w == NoMove then n else 0),
      c.gameId)
  }

  /** `recall` on the abstract map: the entry is kept if present, a fresh one added otherwise. */
  function Recalled(c: map<nat, GameStateConfig>, id: nat): map<nat, GameStateConfig>
  {
    if id in c then c else c[id := Fresh(id)]
  }

  /** One step of `learn`: recall the entry of `id`, then credit one `w`. */
  function LearnOne(c: map<nat, GameStateConfig>, id: nat, w: Move): map<nat, GameStateConfig>
  {
    var r := Recalled(c, id);
    r[id := Credited(r[id], w, 1)]
  }

  /** `learn` on the abstract map: credit `w` to each id in turn. */
  function Learned(c: map<nat, GameStateConfig>, ids: seq<nat>, w: Move): map<nat, GameStateConfig>
  {
    if ids == [] then c else LearnOne(Learned(c, ids[..|ids| - 1], w), ids[|ids| - 1], w)
  }

  lemma LearnedStep(c: map<nat, GameStateConfig>, ids: seq<nat>, w: Move, i: nat)
    requires i < |ids|
    ensures Learned(c, ids[..i + 1], w) == LearnOne(Learned(c, ids[..i], w), ids[i], w)
  {
    assert ids[..i + 1][..i] == ids[..i];
  }

  /** How often `k` occurs in `ids`. */
  function Occurrences(ids: seq<nat>, k: nat): (n: nat)
    ensures n == 0 <==> k !in ids
  {
    if ids == [] then 0
    else Occurrences(ids[..|ids| - 1], k) + (if ids[|ids| - 1] == k then 1 else 0)
  }

  /** The record an id starts from: its entry if present, otherwise a fresh one. */
  function Base(c: map<nat, GameStateConfig>, k: nat): GameStateConfig
  {
    if k in c then c[k] else Fresh(k)
  }

  /** The ids learning leaves in the map: those there before and those of the trajectory. */
  lemma {:induction false} LearnDomain(c: map<nat, GameStateConfig>, ids: seq<nat>, w: Move, k: nat)
    ensures k in Learned(c, ids, w) <==> k in c || k in ids
  {
    if ids != [] {
      var init := ids[..|ids| - 1];
      LearnDomain(c, init, w, k);
      assert ids == init + [ids[|ids| - 1]];
    }
  }

  /** The entry of `k` after learning: its starting record credited once per occurrence of `k`. */
  lemma {:induction false} LearnAt(c: map<nat, GameStateConfig>, ids: seq<nat>, w: Move, k: nat)
    requires k in c || k in ids
    ensures k in Learned(c, ids, w)
    ensures Learned(c, ids, w)[k] == Credited(Base(c, k), w, Occurrences(ids, k))
  {
    LearnDomain(c, ids, w, k);
    if ids != [] {
      var init := ids[..|ids| - 1];
      var id := ids[|ids| - 1];
      assert ids == init + [id];
      var prev := Learned(c, init, w);
      assert Learned(c, ids, w) == LearnOne(prev, id, w);
      assert Occurrences(ids, k) == Occurrences(init, k) + (if id == k then 1 else 0);
      var n := Occurrences(init, k);
      if k in c || k in init {
        LearnAt(c, init, w, k);
        assert prev[k] == Credited(Base(c, k), w, n);
        if id == k {
          assert Recalled(prev, k) == prev;
          assert Learned(c, ids, w)[k] == Credited(prev[k], w, 1);
          CreditedAdd(Base(c, k), w, n, 1);
        } else {
          assert Learned(c, ids, w)[k] == prev[k];
        }
      } else {
        LearnDomain(c, init, w, k);
        assert k !in prev && n == 0 && id == k;
        assert Learned(c, ids, w)[k] == Credited(Fresh(k), w, 1);
      }
    }
  }

  /** Crediting `m` outcomes and then `n` more is crediting `m + n`. */
  lemma CreditedAdd(c: GameStateConfig, w: Move, m: nat, n: nat)
    ensures Credited(Credited(c, w, m), w, n) == Credited(c, w, m + n)
  {
  }

  /**
   * What learning does to every entry: the ids of the trajectory are added if
   * missing, each entry is credited once per occurrence of its id, and every
   * other entry is untouched.
   */
  lemma LearnEffect(c: map<nat, GameStateConfig>, ids: seq<nat>, w: Move)
    ensures forall k :: k in Learned(c, ids, w) <==> k in c || k in ids
    ensures forall k :: k in c || k in ids ==>
      Learned(c, ids, w)[k] == Credited(Base(c, k), w, Occurrences(ids, k))
  {
    forall k
      ensures k in Learned(c, ids, w) <==> k in c || k in ids
    {
      LearnDomain(c, ids, w, k);
    }
    forall k | k in c || k in ids
      ensures Learned(c, ids, w)[k] == Credited(Base(c, k), w, Occurrences(ids, k))
    {
      LearnAt(c, ids, w, k);
    }
  }

  /** Learning never lowers a counter and never drops an entry. */
  lemma LearnNeverDecreases(c: map<nat, GameStateConfig>, ids: seq<nat>, w: Move, k: nat)
    requires k in c
    ensures k in Learned(c, ids, w)
    ensures Learned(c, ids, w)[k].x >= c[k].x
    ensures Learned(c, ids, w)[k].o >= c[k].o
    ensures Learned(c, ids, w)[k].draw >= c[k].draw
  {
    LearnEffect(c, ids, w);
  }

  /** The ids `learn` looks up: `toId` of every state of the trajectory. */
  function Ids(gameStates: seq<GameState>): (ids: seq<nat>)
    ensures |ids| == |gameStates|
    ensures forall i :: 0 <= i < |gameStates| ==> ids[i] == ToId(gameStates[i].moves)
  {
    seq(|gameStates|, i requires 0 <= i < |gameStates| => ToId(gameStates[i].moves))
  }

  // ----- insertion order -----

  predicate NoDups(s: seq<nat>)
  {
    forall a, b :: 0 <= a < b < |s| ==> s[a] != s[b]
  }

  /** The key order of a `Map` after inserting `ids` in turn: a new key goes last, a known key stays put. */
  function Extend(order: seq<nat>, ids: seq<nat>): seq<nat>
  {
    if ids == [] then order
    else
      var prev := Extend(order, ids[..|ids| - 1]);
      var id := ids[|ids| - 1];
      if id in prev then prev else prev + [id]
  }

  /** Inserting keys keeps the old keys first and in place, adds exactly the new ones, and never lists a key twice. */
  lemma {:induction false} ExtendFacts(order: seq<nat>, ids: seq<nat>)
    ensures NoDups(order) ==> NoDups(Extend(order, ids))
    ensures forall k :: k in Extend(order, ids) <==> k in order || k in ids
    ensures |order| <= |Extend(order, ids)| && Extend(order, ids)[..|order|] == order
  {
    if ids != [] {
      var init := ids[..|ids| - 1];
      ExtendFacts(order, init);
      assert ids == init + [ids[|ids| - 1]];
    }
  }

  lemma ExtendStep(order: seq<nat>, ids: seq<nat>, i: nat)
    requires i < |ids|
    ensures Extend(order, ids[..i + 1]) == Extend(Extend(order, ids[..i]), [ids[i]])
  {
    assert ids[..i + 1][..i] == ids[..i];
    assert [ids[i]][..0] == [];
  }

  /** Extending by the keys already in order, in order, changes nothing; from empty, a duplicate-free list rebuilds itself. */
  lemma {:induction false} ExtendRebuilds(ids: seq<nat>)
    requires NoDups(ids)
    ensures Extend([], ids) == ids
  {
    if ids != [] {
      var init := ids[..|ids| - 1];
      assert NoDups(init);
      ExtendRebuilds(init);
      assert ids[|ids| - 1] !in init;
    }
  }

  // ----- loading and emitting records -----

  /** The record merge of `load`: each record overwrites or inserts the entry of its id, in order. */
  function Merge(c: map<nat, GameStateConfig>, records: seq<GameStateConfig>): map<nat, GameStateConfig>
  {
    if records == [] then c
    else
      var r := records[|records| - 1];
      Merge(c, records[..|records| - 1])[r.gameId := r]
  }

  lemma MergeStep(c: map<nat, GameStateConfig>, records: seq<GameStateConfig>, i: nat)
    requires i < |records|
    ensures Merge(c, records[..i + 1]) == Merge(c, records[..i])[records[i].gameId := records[i]]
  {
    assert records[..i + 1][..i] == records[..i];
  }

  /** The last record of `records` for id `k`, if any. */
  function LastFor(records: seq<GameStateConfig>, k: nat): (r: Option<GameStateConfig>)
    ensures r.Some? ==> r.value in records && r.value.gameId == k
    ensures r.None? <==> forall i :: 0 <= i < |records| ==> records[i].gameId != k
  {
    if records == [] then None
    else if records[|records| - 1].gameId == k then Some(records[|records| - 1])
    else LastFor(records[..|records| - 1], k)
  }

  /** After a merge an id holds its last record; an id without a record keeps its entry, or stays absent. */
  lemma {:induction false} MergeEffect(c: map<nat, GameStateConfig>, records: seq<GameStateConfig>)
    ensures forall k :: LastFor(records, k).Some? ==>
      k in Merge(c, records) && Merge(c, records)[k] == LastFor(records, k).value
    ensures forall k :: LastFor(records, k).None? ==>
      (k in Merge(c, records) <==> k in c) && (k in c ==> Merge(c, records)[k] == c[k])
  {
    if records != [] {
      MergeEffect(c, records[..|records| - 1]);
    }
  }

  /** The key order after `load`. */
  function RecordIds(records: seq<GameStateConfig>): (ids: seq<nat>)
    ensures |ids| == |records|
    ensures forall i :: 0 <= i < |records| ==> ids[i] == records[i].gameId
  {
    seq(|records|, i requires 0 <= i < |records| => records[i].gameId)
  }

  /** `toJson`'s record list: one record per id, in key order. */
  function Records(c: map<nat, GameStateConfig>, order: seq<nat>): (rs: seq<GameStateConfig>)
    requires forall k :: k in order ==> k in c
    ensures |rs| == |order|
    ensures forall i :: 0 <= i < |order| ==> rs[i] == c[order[i]]
  {
    seq(|order|, i requires 0 <= i < |order| => c[order[i]])
  }

  /** The entries and key order of a brain are consistent: ids match keys, keys match order. */
  ghost predicate Coherent(c: map<nat, GameStateConfig>, order: seq<nat>)
  {
    (forall k :: k in c <==> k in order)
    && (forall k :: k in c ==> c[k].gameId == k)
    && NoDups(order)
  }

  lemma {:induction false} MergeRecords(c: map<nat, GameStateConfig>, order: seq<nat>)
    requires forall k :: k in order ==> k in c && c[k].gameId == k
    ensures Merge(map[], Records(c, order)) == map k | k in order :: c[k]
  {
    if order != [] {
      var init := order[..|order| - 1];
      MergeRecords(c, init);
      assert Records(c, order)[..|order| - 1] == Records(c, init);
      assert order == init + [order[|order| - 1]];
    }
  }

  /** Loading `toJson`'s records into an empty brain gives back the same entries in the same order. */
  lemma JsonRoundTrip(c: map<nat, GameStateConfig>, order: seq<nat>)
    requires Coherent(c, order)
    ensures Merge(map[], Records(c, order)) == c
    ensures Extend([], RecordIds(Records(c, order))) == order
  {
    MergeRecords(c, order);
    assert RecordIds(Records(c, order)) == order;
    ExtendRebuilds(order);
  }

  // ----- the mutable store -----

  /** `GameStateMemory`: the counters of one board, updated in place. */
  class GameStateMemory {
    var gameId: nat
    var x: nat
    var o: nat
    var draw: nat

    /** The record as `json` emits it. */
    function Json(): GameStateConfig
      reads this
    {
      GameStateConfig(x, o, draw, gameId)
    }

    constructor (state: GameStateConfig)
      ensures Json() == state
    {
      gameId := state.gameId;
      x := state.x;
      o := state.o;
      draw := state.draw;
    }

    /** `newEmpty`. */
    static method NewEmpty(id: nat) returns (m: GameStateMemory)
      ensures fresh(m) && m.Json() == Fresh(id)
    {
      m := new GameStateMemory(Fresh(id));
    }

    /** `total`. */
    function Total(): (t: nat)
      reads this
      ensures t == TotalOf(Json())
    {
      x + o + draw
    }

    /** `predictions`. */
    function Predictions(): (p: Option<Prediction>)
      reads this
      ensures p == PredictionsOf(Json())
    {
      PredictionsOf(Json())
    }

    /** `boostX`: one more X win; returns the new count. */
    method BoostX() returns (r: nat)
      modifies this
      ensures Json() == Credited(old(Json()), Cross, 1) && r == x
    {
      x := x + 1;
      r := x;
    }

    /** `boostO`: one more O win; returns the new count. */
    method BoostO() returns (r: nat)
      modifies this
      ensures Json() == Credited(old(Json()), Circle, 1) && r == o
    {
      o := o + 1;
      r := o;
    }

    /** `boostDraw`: one more draw; returns the new count. */
    method BoostDraw() returns (r: nat)
      modifies this
      ensures Json() == Credited(old(Json()), NoMove, 1) && r == draw
    {
      draw := draw + 1;
      r := draw;
    }
  }

  // ----- views of a table of record objects, shared with lib/learn.ts's brain -----

  function ObjectsOf(memory: map<nat, GameStateMemory>): set<GameStateMemory>
  {
    set id | id in memory :: memory[id]
  }

  /** The abstract entries of a table. */
  function ContentsOf(memory: map<nat, GameStateMemory>): map<nat, GameStateConfig>
    reads ObjectsOf(memory)
  {
    map id | id in memory :: memory[id].Json()
  }

  /**
   * A table is well formed when every record sits under its own id, no two
   * ids share a record object, and `order` lists the keys once each.
   */
  ghost predicate WellKeyed(memory: map<nat, GameStateMemory>, order: seq<nat>)
    reads ObjectsOf(memory)
  {
    KeyedById(ContentsOf(memory)) && Shaped(memory, order)
  }

  /** The part of well-formedness that does not look inside the records. */
  ghost predicate Shaped(memory: map<nat, GameStateMemory>, order: seq<nat>)
  {
    Distinct(memory)
    && (forall id :: id in memory <==> id in order)
    && NoDups(order)
  }

  /** Every entry sits under its own id. */
  ghost predicate KeyedById(c: map<nat, GameStateConfig>)
  {
    forall k :: k in c ==> c[k].gameId == k
  }

  /**
   * Once the record under `id` has been credited in place and no other record
   * has changed, the entry of `id` is credited and the table stays well formed.
   */
  lemma BoostedInPlace(memory: map<nat, GameStateMemory>, order: seq<nat>, id: nat, w: Move,
                       before: map<nat, GameStateConfig>)
    requires KeyedById(before) && Shaped(memory, order)
    requires id in memory && before.Keys == memory.Keys
    requires forall k :: k in memory && k != id ==> memory[k].Json() == before[k]
    requires memory[id].Json() == Credited(before[id], w, 1)
    ensures WellKeyed(memory, order)
    ensures ContentsOf(memory) == before[id := Credited(before[id], w, 1)]
  {
    ContentsPointChange(memory, id, before);
    KeyedAfterCredit(before, id, w);
  }

  /** Crediting an entry keeps its id. */
  lemma KeyedAfterCredit(c: map<nat, GameStateConfig>, id: nat, w: Move)
    requires KeyedById(c) && id in c
    ensures KeyedById(c[id := Credited(c[id], w, 1)])
  {
  }

  /** No record object is shared by two ids. */
  ghost predicate Distinct(memory: map<nat, GameStateMemory>)
  {
    forall a, b :: a in memory && b in memory && a != b ==> memory[a] != memory[b]
  }

  lemma ContentsOfUpdate(memory: map<nat, GameStateMemory>, id: nat, m: GameStateMemory)
    ensures ContentsOf(memory[id := m]) == ContentsOf(memory)[id := m.Json()]
  {
  }

  /** When only the record under `id` may have changed, only the entry of `id` has. */
  lemma ContentsPointChange(memory: map<nat, GameStateMemory>, id: nat, before: map<nat, GameStateConfig>)
    requires id in memory && before.Keys == memory.Keys
    requires forall k :: k in memory && k != id ==> memory[k].Json() == before[k]
    ensures ContentsOf(memory) == before[id := memory[id].Json()]
  {
  }

  lemma ObjectsOfInsert(memory: map<nat, GameStateMemory>, id: nat, m: GameStateMemory)
    requires id !in memory
    ensures ObjectsOf(memory[id := m]) == ObjectsOf(memory) + {m}
  {
    var after := memory[id := m];
    forall o | o in ObjectsOf(after) ensures o in ObjectsOf(memory) + {m} {
      var k :| k in after && after[k] == o;
      if k != id {
        assert memory[k] == o;
      }
    }
    forall o | o in ObjectsOf(memory) + {m} ensures o in ObjectsOf(after) {
      if o != m {
        var k :| k in memory && memory[k] == o;
        assert after[k] == o;
      } else {
        assert after[id] == m;
      }
    }
  }

  /** Inserting a new object under a new key keeps the table's shape. */
  lemma ShapedInsert(memory: map<nat, GameStateMemory>, order: seq<nat>, id: nat, m: GameStateMemory)
    requires Shaped(memory, order) && id !in memory && m !in ObjectsOf(memory)
    ensures Shaped(memory[id := m], order + [id])
    ensures ObjectsOf(memory[id := m]) == ObjectsOf(memory) + {m}
  {
    ObjectsOfInsert(memory, id, m);
    var after := memory[id := m];
    forall a, b | a in after && b in after && a != b
      ensures after[a] != after[b]
    {
      if a == id {
        assert after[b] == memory[b] && memory[b] in ObjectsOf(memory);
      } else if b == id {
        assert after[a] == memory[a] && memory[a] in ObjectsOf(memory);
      }
    }
  }

  /** A well-formed table has coherent abstract entries. */
  lemma WellKeyedCoherent(memory: map<nat, GameStateMemory>, order: seq<nat>)
    requires WellKeyed(memory, order)
    ensures Coherent(ContentsOf(memory), order)
  {
  }

  /** `Brain`: the table of lib/brain.ts. */
  class Brain {
    var memory: map<nat, GameStateMemory>
    var order: seq<nat>

    ghost predicate Valid()
      reads this, ObjectsOf(memory)
    {
      WellKeyed(memory, order)
    }

    function Contents(): map<nat, GameStateConfig>
      reads this, ObjectsOf(memory)
    {
      ContentsOf(memory)
    }

    constructor ()
      ensures Valid() && Contents() == map[] && order == []
    {
      memory := map[];
      order := [];
    }

    /**
     * `recall`: the record of `id`, inserted fresh if missing. Nothing else
     * is added or altered.
     */
    method Recall(id: nat) returns (m: GameStateMemory)
      requires Valid()
      modifies this
      ensures Valid()
      ensures Contents() == Recalled(old(Contents()), id)
      ensures order == Extend(old(order), [id])
      ensures id in memory && memory[id] == m
      ensures id in old(memory) ==> m == old(memory[id])
      ensures id !in old(memory) ==> fresh(m)
      ensures ObjectsOf(memory) == old(ObjectsOf(memory)) + {m}
    {
      assert [id][..0] == [];
      if id in memory {
        m := memory[id];
        return;
      }
      ghost var pre := Contents();
      ghost var before := memory;
      m := GameStateMemory.NewEmpty(id);
      ShapedInsert(memory, order, id, m);
      memory := memory[id := m];
      order := order + [id];
      assert ContentsOf(before) == pre;
      ContentsOfUpdate(before, id, m);
    }

    /** `predict`: `recall`, then the recalled record's predictions. */
    method Predict(id: nat) returns (p: Option<Prediction>)
      requires Valid()
      modifies this
      ensures Valid()
      ensures Contents() == Recalled(old(Contents()), id)
      ensures order == Extend(old(order), [id])
      ensures p == PredictionsOf(Contents()[id])
    {
      var m := Recall(id);
      p := m.Predictions();
    }

    /** The body of `learn`'s `forEach`: recall the record of `id`, then boost the counter of outcome `w`. */
    method LearnState(id: nat, w: Move)
      requires Valid()
      modifies this, ObjectsOf(memory)
      ensures Valid()
      ensures Contents() == LearnOne(old(Contents()), id, w)
      ensures order == Extend(old(order), [id])
      ensures forall o :: o in ObjectsOf(memory) ==> o in old(ObjectsOf(memory)) || fresh(o)
    {
      var m := Recall(id);
      ghost var recalled := Contents();
      label BeforeBoost:
      if w == Cross {
        var count := m.BoostX();
      } else if w == Circle {
        var count := m.BoostO();
      } else {
        var count := m.BoostDraw();
      }
      forall k | k in memory && k != id
        ensures memory[k].Json() == recalled[k]
      {
        assert memory[k] != m;
        assert memory[k].Json() == old@BeforeBoost(memory[k].Json());
      }
      BoostedInPlace(memory, order, id, w, recalled);
    }

    /**
     * `learn`: for every state of the trajectory, recall its record and credit
     * it with the outcome of the last state.
     */
    method Learn(gameStates: seq<GameState>)
      requires Valid()
      requires |gameStates| > 0 && WellFormed(Tail(gameStates))
      modifies this, ObjectsOf(memory)
      ensures Valid()
      ensures Contents() == Learned(old(Contents()), Ids(gameStates), Winner(Tail(gameStates)))
      ensures order == Extend(old(order), Ids(gameStates))
      ensures forall o :: o in ObjectsOf(memory) ==> o in old(ObjectsOf(memory)) || fresh(o)
    {
      var winner := Winner(Tail(gameStates));
      ghost var ids := Ids(gameStates);
      for i := 0 to |gameStates|
        invariant Valid()
        invariant Contents() == Learned(old(Contents()), ids[..i], winner)
        invariant order == Extend(old(order), ids[..i])
        invariant forall o :: o in ObjectsOf(memory) ==> o in old(ObjectsOf(memory)) || fresh(o)
      {
        LearnedStep(old(Contents()), ids, winner, i);
        ExtendStep(old(order), ids, i);
        LearnState(ToId(gameStates[i].moves), winner);
      }
      assert ids[..|gameStates|] == ids;
    }

    /** The body of `load`'s `forEach`: `memory.set(r.gameId, new GameStateMemory(r))`. */
    method Store(r: GameStateConfig)
      requires Valid()
      modifies this
      ensures Valid()
      ensures Contents() == old(Contents())[r.gameId := r]
      ensures order == Extend(old(order), [r.gameId])
    {
      assert [r.gameId][..0] == [];
      ghost var pre := Contents();
      ghost var before := memory;
      var m := new GameStateMemory(r);
      if r.gameId !in memory {
        order := order + [r.gameId];
      }
      memory := memory[r.gameId := m];
      assert ContentsOf(before) == pre;
      assert m.Json() == r;
      ContentsOfUpdate(before, r.gameId, m);
    }

    /** The record-merge part of `load`: each record replaces or inserts the entry of its id. */
    method Load(records: seq<GameStateConfig>)
      requires Valid()
      modifies this
      ensures Valid()
      ensures Contents() == Merge(old(Contents()), records)
      ensures order == Extend(old(order), RecordIds(records))
    {
      ghost var ids := RecordIds(records);
      for i := 0 to |records|
        invariant Valid()
        invariant Contents() == Merge(old(Contents()), records[..i])
        invariant order == Extend(old(order), ids[..i])
      {
        MergeStep(old(Contents()), records, i);
        ExtendStep(old(order), ids, i);
        Store(records[i]);
      }
      assert records[..|records|] == records;
      assert ids[..|records|] == ids;
    }

    /** The record list `toJson` serialises: one record per entry, in key order, counters as stored. */
    function ToJson(): (records: seq<GameStateConfig>)
      requires Valid()
      reads this, ObjectsOf(memory)
      ensures |records| == |order|
      ensures forall i :: 0 <= i < |order| ==> order[i] in memory && records[i] == memory[order[i]].Json()
    {
      Records(Contents(), order)
    }
  }
}
