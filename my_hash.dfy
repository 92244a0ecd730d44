/**
  `MyHash#symbolize_keys` (lib/client.rb): rebuilds a Hash with every key
  that responds to `to_sym` (a String or a Symbol) turned into a Symbol, and
  recurses into values that are themselves Hashes. Arrays, and Hashes inside
  Arrays, are left as they are.
*/
module MyHash {
  import opened RubyValues

  /** `k.respond_to?(:to_sym) ? k.to_sym : k` */
  function SymKey(k: Value): (r: Value)
    ensures !r.Str?
    ensures !k.Str? ==> r == k
    ensures k.Str? ==> r == Sym(k.s)
  {
    match k
    case Str(s) => Sym(s)
    case _ => k
  }

  /** The pairs `[SymKey(k), Symbolize(v)]` that `h.map` builds, in order. */
  function SymbolizedPairs(es: seq<Entry>): seq<Entry>
    decreases Hash(es), 0
  {
    seq(|es|, i requires 0 <= i < |es| => Entry(SymKey(es[i].key), Symbolize(es[i].val)))
  }

  /** The recursive lambda `symbolize`: `Hash[pairs]` of the converted pairs, or the value itself. */
  function Symbolize(v: Value): (r: Value)
    ensures !v.Hash? ==> r == v
    ensures v.Hash? ==> r.Hash?
    decreases v, 1
  {
    match v
    case Hash(es) => Hash(FromPairs(SymbolizedPairs(es)))
    case _ => v
  }

  /** What `symbolize_keys` leaves behind: no String key at any depth, and no key twice. */
  predicate Symbolized(v: Value)
  {
    match v
    case Hash(es) =>
      UniqueKeys(es) && forall i :: 0 <= i < |es| ==> !es[i].key.Str? && Symbolized(es[i].val)
    case _ => true
  }

  /**
    The keys of the result are the converted keys of the argument, each once,
    at its first occurrence; the value under a key is the symbolized value of
    the LAST entry whose key converts to it (so of `{"a" => 1, :a => 2}` only
    `:a => 2` survives).
  */
  lemma SymbolizeHash(es: seq<Entry>)
    ensures Keys(Symbolize(Hash(es)).entries) == Dedup(Keys(SymbolizedPairs(es)))
    ensures forall k :: Lookup(Symbolize(Hash(es)).entries, k) == Lookup(SymbolizedPairs(es), k)
  {
    var ps := SymbolizedPairs(es);
    assert Symbolize(Hash(es)).entries == Merge([], ps);
    MergeKeys([], ps);
    assert [] + Keys(ps) == Keys(ps);
    forall k ensures Lookup(Symbolize(Hash(es)).entries, k) == Lookup(ps, k) {
      MergeLookup([], ps, k);
    }
  }

  /** Whatever the input, the result has the symbolized shape. */
  lemma {:induction false} SymbolizeIsSymbolized(v: Value)
    ensures Symbolized(Symbolize(v))
  {
    match v
    case Hash(es) =>
      var ps := SymbolizedPairs(es);
      var r := FromPairs(ps);
      MergeKeepsOrder([], ps);
      MergeEntriesFrom([], ps);
      forall i | 0 <= i < |r|
        ensures !r[i].key.Str? && Symbolized(r[i].val)
      {
        assert r[i] in ps;
        var j :| 0 <= j < |ps| && ps[j] == r[i];
        SymbolizeIsSymbolized(es[j].val);
      }
    case _ =>
  }

  /** A value already in symbolized shape is left unchanged. */
  lemma {:induction false} SymbolizeFixesSymbolized(v: Value)
    requires Symbolized(v)
    ensures Symbolize(v) == v
  {
    match v
    case Hash(es) =>
      var ps := SymbolizedPairs(es);
      forall i | 0 <= i < |es|
        ensures ps[i] == es[i]
      {
        SymbolizeFixesSymbolized(es[i].val);
      }
      assert ps == es;
      FromPairsUnique(es);
    case _ =>
  }

  /** `symbolize_keys` is idempotent. */
  lemma SymbolizeIdempotent(v: Value)
    ensures Symbolize(Symbolize(v)) == Symbolize(v)
  {
    SymbolizeIsSymbolized(v);
    SymbolizeFixesSymbolized(Symbolize(v));
  }
}
