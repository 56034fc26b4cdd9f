/** A level as the code keeps it: a vector of shard slots, a count of the used ones, and a
    shard waiting for its turn. */
module InternalLevels {
  import opened Records
  import opened ExtensionStructures

  class InternalLevel {
    const no: nat
    var slots: seq<Option<Shard>>
    var shardCnt: nat
    var pending: Option<Shard>

    /** The used slots come first. */
    ghost predicate Valid()
      reads this
    {
      && shardCnt <= |slots|
      && (forall i :: 0 <= i < |slots| ==> (slots[i].Some? <==> i < shardCnt))
    }

    ghost function Value(): (level: Level)
      requires Valid()
      reads this
      ensures level.no == no && level.cap == |slots| && |level.shards| == shardCnt && level.pending == pending
    {
      Level(no, |slots|, seq(shardCnt, i requires 0 <= i < shardCnt && Valid() reads this => slots[i].value), pending)
    }

    constructor (no: nat, cap: nat)
      ensures Valid() && Value() == Level(no, cap, [], None)
    {
      this.no, slots, shardCnt, pending := no, seq(cap, _ => None), 0, None;
    }

    /** A level holding one shard: what a leveling or Bentley-Saxe merge creates. */
    constructor Single(no: nat, shard: Shard)
      ensures Valid() && Value() == Level(no, 1, [shard], None)
    {
      this.no, slots, shardCnt, pending := no, [Some(shard)], 1, None;
      new;
      assert Value().shards == [shard];
    }

    /** The shards of all non-empty slots. */
    method GetShards() returns (shards: seq<Shard>)
      requires Valid()
      ensures shards == Value().shards
    {
      shards := [];
      for i := 0 to |slots|
        invariant Valid() && shards == Value().shards[..if i < shardCnt then i else shardCnt]
      {
        if slots[i].Some? {
          shards := shards + [slots[i].value];
        }
      }
    }

    method Read() returns (level: Level)
      requires Valid()
      ensures level == Value()
    {
      var shards := GetShards();
      level := Level(no, |slots|, shards, pending);
    }

    method Store(out: Shard)
      requires Valid() && shardCnt < |slots|
      modifies this
      ensures Valid() && Value() == old(Value()).(shards := old(Value()).shards + [out])
    {
      slots := slots[shardCnt := Some(out)];
      shardCnt := shardCnt + 1;
      assert Value().shards == old(Value()).shards + [out];
    }

    /** Appends the merge of another level; `out` is the merged shard. */
    method AppendMerged(incoming: InternalLevel, out: Shard)
      requires Valid() && incoming.Valid() && incoming != this
      modifies this
      ensures Valid()
      ensures Value() == if old(incoming.Value()).shards == [] then old(Value())
                         else if |old(Value()).shards| == old(Value()).cap then old(Value()).(pending := Some(out))
                         else old(Value()).(shards := old(Value()).shards + [out])
    {
      if incoming.shardCnt == 0 {
        return;
      }
      assert incoming.Value().shards != [];
      if shardCnt == |slots| {
        pending := Some(out);
        assert Value().shards == old(Value()).shards;
        return;
      }
      Store(out);
    }

    method AppendFlushed(out: Shard)
      requires Valid()
      modifies this
      ensures Valid() && Value() == AppendBuffer(old(Value()), out)
    {
      if shardCnt == |slots| {
        pending := Some(out);
        assert Value().shards == old(Value()).shards;
        return;
      }
      Store(out);
    }

    /** Promotes a pending shard, dropping all others. */
    method Promote()
      requires Valid() && |slots| >= 1
      modifies this
      ensures Valid()
      ensures Value() == if old(pending).None? then old(Value())
                         else old(Value()).(shards := [old(pending).value], pending := None)
    {
      if pending.Some? {
        var empty: seq<Option<Shard>> := [];
        while |empty| < |slots|
          invariant |empty| <= |slots| && slots == old(slots) && pending == old(pending)
          invariant forall i :: 0 <= i < |empty| ==> empty[i] == None
        {
          empty := empty + [None];
        }
        slots := empty[0 := pending];
        pending, shardCnt := None, 1;
        assert Value().shards == [old(pending).value];
      }
    }

    /** Appending a level and finalizing is one step of the structure. */
    method AppendAndFinalize(incoming: InternalLevel, out: Shard)
      requires Valid() && incoming.Valid() && incoming != this && |slots| >= 1 && pending.None?
      modifies this
      ensures Valid() && Value() == AppendLevel(old(Value()), old(incoming.Value()), out)
    {
      AppendMerged(incoming, out);
      Promote();
    }

    /** A copy that can be changed without changing this level. */
    method Clone() returns (copy: InternalLevel)
      requires Valid()
      ensures fresh(copy) && copy.Valid() && copy.Value() == Value().(pending := None)
    {
      copy := new InternalLevel(no, |slots|);
      copy.slots, copy.shardCnt := slots, shardCnt;
      assert copy.Value().shards == Value().shards;
    }
  }
}
