/** The memo table of configurations already entered, keyed by the hash of their bit set. */
module Cache {
  import opened Linearizability
  import opened Words
  import opened Search
  import Bitset

  datatype CacheEntry<S> = CacheEntry(linearized: array<Word>, state: S)

  type Table<S> = map<Word, seq<CacheEntry<S>>>

  ghost function EntryConfig<S>(e: CacheEntry<S>): Config<S>
    reads e.linearized
  {
    (Bitset.Elems(e.linearized[..]), e.state)
  }

  lemma EntryConfigIs<S>(e: CacheEntry<S>)
    ensures EntryConfig(e) == (Bitset.Elems(e.linearized[..]), e.state)
  {}

  /** Entry i of bucket h is well kept: the right length, in the right bucket, and recorded. */
  ghost predicate EntryOk<S>(cache: Table<S>, h: Word, i: nat, length: nat,
                             recorded: set<Config<S>>, arrays: set<array<Word>>)
    requires h in cache && i < |cache[h]|
    reads arrays
  {
    var e := cache[h][i];
    && e.linearized in arrays && e.linearized.Length == length
    && Bitset.HashOf(e.linearized[..]) == h
    && EntryConfig(e) in recorded
  }

  ghost predicate Holds<S>(cache: Table<S>, cfg: Config<S>, arrays: set<array<Word>>)
    reads arrays
  {
    exists h: Word, i: nat | h in cache && i < |cache[h]| ::
      cache[h][i].linearized in arrays && EntryConfig(cache[h][i]) == cfg
  }

  /** The table holds exactly the recorded configurations, each in the bucket of its hash. */
  ghost predicate CacheOk<S>(cache: Table<S>, length: nat, recorded: set<Config<S>>, arrays: set<array<Word>>)
    reads arrays
  {
    && (forall h: Word, i: nat | h in cache && i < |cache[h]| :: EntryOk(cache, h, i, length, recorded, arrays))
    && (forall cfg | cfg in recorded :: Holds(cache, cfg, arrays))
  }

  lemma CacheEmpty<S>(length: nat)
    ensures CacheOk<S>(map[], length, {}, {})
  {}

  /** A lookup decides whether an equal configuration is recorded, whatever hashes collide. */
  method CacheContains<S, I, O>(model: Model<S, I, O>, cache: Table<S>, entry: CacheEntry<S>,
                                ghost recorded: set<Config<S>>, ghost arrays: set<array<Word>>) returns (found: bool)
    requires CacheOk(cache, entry.linearized.Length, recorded, arrays)
    ensures found <==> Has(model, recorded, EntryConfig(entry))
  {
    var hash := Bitset.Hash(entry.linearized);
    if hash in cache {
      var bucket := cache[hash];
      for i := 0 to |bucket|
        invariant forall j: nat | j < i :: !Same(model, entry, bucket[j])
      {
        assert EntryOk(cache, hash, i, entry.linearized.Length, recorded, arrays);
        var same := Bitset.Equals(entry.linearized, bucket[i].linearized);
        if same && model.equal(entry.state, bucket[i].state) {
          assert EntryConfig(bucket[i]) in recorded;
          return true;
        }
      }
    }
    if Has(model, recorded, EntryConfig(entry)) {
      RecordedInBucket(model, cache, entry, recorded, arrays);
    }
    return false;
  }

  /** The same operations and an equal state. */
  ghost predicate Same<S, I, O>(model: Model<S, I, O>, entry: CacheEntry<S>, e: CacheEntry<S>)
    reads entry.linearized, e.linearized
  {
    EntryConfig(e).0 == EntryConfig(entry).0 && model.equal(entry.state, e.state)
  }

  /** Equal sets hash equally, so an equal recorded configuration can only sit in the entry's own bucket. */
  lemma RecordedInBucket<S, I, O>(model: Model<S, I, O>, cache: Table<S>, entry: CacheEntry<S>,
                                  recorded: set<Config<S>>, arrays: set<array<Word>>)
    requires CacheOk(cache, entry.linearized.Length, recorded, arrays)
    requires Has(model, recorded, EntryConfig(entry))
    ensures var hash := Bitset.HashOf(entry.linearized[..]);
            hash in cache && exists i: nat | i < |cache[hash]| :: Same(model, entry, cache[hash][i])
  {
    var cfg :| cfg in recorded && cfg.0 == EntryConfig(entry).0 && model.equal(entry.state, cfg.1);
    assert Holds(cache, cfg, arrays);
    var h: Word, i: nat :| h in cache && i < |cache[h]| &&
      cache[h][i].linearized in arrays && EntryConfig(cache[h][i]) == cfg;
    assert EntryOk(cache, h, i, entry.linearized.Length, recorded, arrays);
    Bitset.ElemsInjective(cache[h][i].linearized[..], entry.linearized[..]);
  }

  /** Appends an entry to the bucket of its hash. */
  method CacheAdd<S>(cache: Table<S>, entry: CacheEntry<S>,
                     ghost recorded: set<Config<S>>, ghost arrays: set<array<Word>>) returns (cache': Table<S>)
    requires CacheOk(cache, entry.linearized.Length, recorded, arrays)
    ensures CacheOk(cache', entry.linearized.Length, recorded + {EntryConfig(entry)}, arrays + {entry.linearized})
  {
    var hash := Bitset.Hash(entry.linearized);
    var bucket := if hash in cache then cache[hash] else [];
    cache' := cache[hash := bucket + [entry]];
    ghost var (recorded', arrays') := (recorded + {EntryConfig(entry)}, arrays + {entry.linearized});
    forall h: Word, i: nat | h in cache' && i < |cache'[h]|
      ensures EntryOk(cache', h, i, entry.linearized.Length, recorded', arrays')
    {
      if h in cache && i < |cache[h]| {
        assert EntryOk(cache, h, i, entry.linearized.Length, recorded, arrays);
      }
    }
    forall cfg | cfg in recorded' ensures Holds(cache', cfg, arrays') {
      if cfg in recorded {
        assert Holds(cache, cfg, arrays);
        var h: Word, i: nat :| h in cache && i < |cache[h]| &&
          cache[h][i].linearized in arrays && EntryConfig(cache[h][i]) == cfg;
        assert cache'[h][i] == cache[h][i];
      } else {
        assert cache'[hash][|bucket|] == entry;
      }
    }
  }

  /** Looks up the configuration that taking operation c leads to, and adds it when it is new. */
  method Enter<S, I, O>(model: Model<S, I, O>, cache: Table<S>, linearized: array<Word>, c: nat, newState: S,
                        ghost recorded: set<Config<S>>, ghost arrays: set<array<Word>>)
    returns (found: bool, cache': Table<S>, ghost arrays': set<array<Word>>)
    requires CacheOk(cache, linearized.Length, recorded, arrays)
    requires c < WORD_BITS * linearized.Length
    ensures var cfg := (Bitset.Elems(linearized[..]) + {c}, newState);
            && (found <==> Has(model, recorded, cfg))
            && CacheOk(cache', linearized.Length, if found then recorded else recorded + {cfg}, arrays')
    ensures forall a | a in arrays' :: a in arrays || fresh(a)
  {
    hide *;
    cache', arrays' := cache, arrays;
    var newLinearized := Bitset.Clone(linearized);
    Bitset.Set(newLinearized, c);
    var newCacheEntry := CacheEntry(newLinearized, newState);
    EntryConfigIs(newCacheEntry);
    found := CacheContains(model, cache, newCacheEntry, recorded, arrays);
    if !found {
      cache' := CacheAdd(cache, newCacheEntry, recorded, arrays);
      arrays' := arrays + {newLinearized};
    }
  }
}
