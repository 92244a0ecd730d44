/**
  The Ruby values the client handles, and the semantics of Ruby's Hash that
  its behaviour depends on: a Hash keeps its keys unique and in first-insertion
  order; storing under an existing key replaces the value in place; `merge`
  stores the entries of its argument one by one, so the later writer wins and
  each key keeps the position it was first inserted at.
*/
module RubyValues {
  import opened Wrappers
  import opened Strings

  /**
    A Ruby object as far as the client can observe it. `Float` is an exact
    fraction num/den together with the text Ruby prints for it; `Obj` is any
    other object (a Logger, say), known only by what `to_s` gives for it.
    Arrays are objects with identity, because the client pushes onto them.
  */
  datatype Value =
    | Nil
    | Bool(b: bool)
    | Int(i: int)
    | Float(num: int, den: int, text: string)
    | Str(s: string)
    | Sym(name: string)
    | Arr(ref: RubyArray)
    | Hash(entries: seq<Entry>)
    | Obj(text: string)

  /** One key/value pair of a Hash, in insertion order. */
  datatype Entry = Entry(key: Value, val: Value)

  /** A mutable Ruby Array. */
  class RubyArray {
    var items: seq<Value>

    constructor (items: seq<Value>)
      ensures this.items == items
    {
      this.items := items;
    }

    /** `Array#push` of one element. */
    method Push(x: Value)
      modifies this
      ensures items == old(items) + [x]
    {
      items := items + [x];
    }
  }

  // ---------------------------------------------------------------------
  // Hash semantics
  // ---------------------------------------------------------------------

  /** `hash.keys`, in insertion order. */
  function Keys(h: seq<Entry>): (ks: seq<Value>)
    ensures |ks| == |h|
    ensures forall i :: 0 <= i < |h| ==> ks[i] == h[i].key
  {
    if |h| == 0 then [] else Keys(h[..|h| - 1]) + [h[|h| - 1].key]
  }

  predicate HasKey(h: seq<Entry>, k: Value)
  {
    k in Keys(h)
  }

  predicate NoDup<T(==)>(s: seq<T>)
  {
    forall i, j :: 0 <= i < j < |s| ==> s[i] != s[j]
  }

  /** A genuine Ruby Hash never holds a key twice. */
  predicate UniqueKeys(h: seq<Entry>)
  {
    NoDup(Keys(h))
  }

  /**
    `hash[k]`: None stands for a missing key. For a list of pairs that repeats
    a key, the last pair is the one that counts, as it is for `Hash[pairs]`.
  */
  function Lookup(h: seq<Entry>, k: Value): (r: Option<Value>)
    ensures r.Some? <==> HasKey(h, k)
  {
    if |h| == 0 then None
    else if h[|h| - 1].key == k then Some(h[|h| - 1].val)
    else Lookup(h[..|h| - 1], k)
  }

  /** A key that is found is found in one of the entries. */
  lemma {:induction false} LookupFound(h: seq<Entry>, k: Value)
    requires HasKey(h, k)
    ensures exists i :: 0 <= i < |h| && h[i] == Entry(k, Lookup(h, k).value)
  {
    var n := |h| - 1;
    if h[n].key != k {
      assert Keys(h) == Keys(h[..n]) + [h[n].key];
      LookupFound(h[..n], k);
      var i :| 0 <= i < n && h[..n][i] == Entry(k, Lookup(h[..n], k).value);
      assert h[i] == h[..n][i];
    }
  }

  /** Looking up in a Hash extended by one entry at the end. */
  lemma LookupSnoc(h: seq<Entry>, e: Entry, k: Value)
    ensures Keys(h + [e]) == Keys(h) + [e.key]
    ensures Lookup(h + [e], k) == if e.key == k then Some(e.val) else Lookup(h, k)
  {
    assert (h + [e])[..|h|] == h;
  }

  /** In a Hash with unique keys, each entry is what its key looks up. */
  lemma {:induction false} LookupUnique(h: seq<Entry>, i: int)
    requires UniqueKeys(h)
    requires 0 <= i < |h|
    ensures Lookup(h, h[i].key) == Some(h[i].val)
  {
    var init := h[..|h| - 1];
    if i < |h| - 1 {
      assert Keys(h)[i] != Keys(h)[|h| - 1];
      assert UniqueKeys(init) by {
        assert forall j :: 0 <= j < |init| ==> Keys(init)[j] == Keys(h)[j];
      }
      LookupUnique(init, i);
    }
  }

  /** Replaces the value of the last entry with key `k`, leaving its position. */
  function Replace(h: seq<Entry>, k: Value, v: Value): (r: seq<Entry>)
    requires HasKey(h, k)
    ensures Keys(r) == Keys(h)
    ensures forall i :: 0 <= i < |r| ==> r[i] in h || r[i] == Entry(k, v)
  {
    var init, last := h[..|h| - 1], h[|h| - 1];
    LookupSnoc(init, last, k);
    assert h == init + [last];
    if last.key == k then
      LookupSnoc(init, Entry(k, v), k);
      init + [Entry(k, v)]
    else
      var rest := Replace(init, k, v);
      LookupSnoc(rest, last, k);
      rest + [last]
  }

  lemma {:induction false} ReplaceLookup(h: seq<Entry>, k: Value, v: Value, k': Value)
    requires HasKey(h, k)
    ensures Lookup(Replace(h, k, v), k') == if k' == k then Some(v) else Lookup(h, k')
  {
    var init, last := h[..|h| - 1], h[|h| - 1];
    var r := Replace(h, k, v);
    if last.key == k {
      assert r[..|r| - 1] == init && r[|r| - 1] == Entry(k, v);
      assert Lookup(r, k') == if k' == k then Some(v) else Lookup(init, k');
    } else {
      ReplaceLookup(init, k, v, k');
      assert r[..|r| - 1] == Replace(init, k, v) && r[|r| - 1] == last;
      assert Lookup(r, k') == if last.key == k' then Some(last.val) else Lookup(Replace(init, k, v), k');
    }
  }

  /** `hash[k] = v`: an existing key keeps its position, a new key goes last. */
  function Store(h: seq<Entry>, k: Value, v: Value): (r: seq<Entry>)
    ensures Keys(r) == if HasKey(h, k) then Keys(h) else Keys(h) + [k]
    ensures forall i :: 0 <= i < |r| ==> r[i] in h || r[i] == Entry(k, v)
  {
    if HasKey(h, k) then Replace(h, k, v)
    else
      var r := h + [Entry(k, v)];
      assert r[..|r| - 1] == h;
      r
  }

  /** After `hash[k] = v`, `k` holds `v` and every other key what it held before. */
  lemma StoreLookup(h: seq<Entry>, k: Value, v: Value, k': Value)
    ensures Lookup(Store(h, k, v), k') == if k' == k then Some(v) else Lookup(h, k')
  {
    if HasKey(h, k) {
      ReplaceLookup(h, k, v, k');
    } else {
      var r := h + [Entry(k, v)];
      assert r[..|r| - 1] == h;
    }
  }

  /** `a.merge(b)`: the entries of `b` stored into `a`, in order. */
  function Merge(a: seq<Entry>, b: seq<Entry>): seq<Entry>
  {
    if |b| == 0 then a
    else Store(Merge(a, b[..|b| - 1]), b[|b| - 1].key, b[|b| - 1].val)
  }

  /** `Hash[pairs]`: the pairs stored one by one into an empty Hash. */
  function FromPairs(pairs: seq<Entry>): seq<Entry>
  {
    Merge([], pairs)
  }

  /**
    The keys of `s` with every repetition removed, each kept at its first
    occurrence: the key order a Hash ends up with when the keys of `s` are
    stored into it one after the other.
  */
  function Dedup<T(==)>(s: seq<T>): (r: seq<T>)
    ensures NoDup(r)
    ensures forall i :: 0 <= i < |r| ==> r[i] in s
    ensures forall i :: 0 <= i < |s| ==> s[i] in r
  {
    if |s| == 0 then []
    else
      var d := Dedup(s[..|s| - 1]);
      var x := s[|s| - 1];
      assert forall i :: 0 <= i < |s| - 1 ==> s[i] == s[..|s| - 1][i];
      if x in d then d else d + [x]
  }

  lemma {:induction false} DedupOfNoDup<T>(s: seq<T>)
    requires NoDup(s)
    ensures Dedup(s) == s
  {
    if |s| > 0 {
      DedupOfNoDup(s[..|s| - 1]);
      assert s == s[..|s| - 1] + [s[|s| - 1]];
    }
  }

  /** Deduplicating after a duplicate-free prefix leaves that prefix in front. */
  lemma {:induction false} DedupKeepsPrefix<T>(x: seq<T>, y: seq<T>)
    requires NoDup(x)
    ensures |x| <= |Dedup(x + y)| && Dedup(x + y)[..|x|] == x
  {
    if |y| == 0 {
      assert x + y == x;
      DedupOfNoDup(x);
    } else {
      DedupKeepsPrefix(x, y[..|y| - 1]);
      assert (x + y)[..|x + y| - 1] == x + y[..|y| - 1];
    }
  }

  /** Looking a key up in `a.merge(b)`: `b`'s value if `b` has the key, else `a`'s. */
  lemma {:induction false} MergeLookup(a: seq<Entry>, b: seq<Entry>, k: Value)
    ensures Lookup(Merge(a, b), k) == if HasKey(b, k) then Lookup(b, k) else Lookup(a, k)
  {
    if |b| > 0 {
      MergeLookup(a, b[..|b| - 1], k);
      StoreLookup(Merge(a, b[..|b| - 1]), b[|b| - 1].key, b[|b| - 1].val, k);
      assert Keys(b) == Keys(b[..|b| - 1]) + [b[|b| - 1].key];
    }
  }

  /**
    The keys of `a.merge(b)`: those of `a` in their order, then the keys new in
    `b` in the order they first occur there.
  */
  lemma {:induction false} MergeKeys(a: seq<Entry>, b: seq<Entry>)
    requires UniqueKeys(a)
    ensures Keys(Merge(a, b)) == Dedup(Keys(a) + Keys(b))
  {
    if |b| == 0 {
      assert Keys(a) + Keys(b) == Keys(a);
      DedupOfNoDup(Keys(a));
    } else {
      var init, last := b[..|b| - 1], b[|b| - 1];
      MergeKeys(a, init);
      var s := Keys(a) + Keys(b);
      assert s == (Keys(a) + Keys(init)) + [last.key];
      DedupSnoc(Keys(a) + Keys(init), last.key);
    }
  }

  lemma DedupSnoc<T>(s: seq<T>, x: T)
    ensures Dedup(s + [x]) == if x in Dedup(s) then Dedup(s) else Dedup(s) + [x]
  {
    assert (s + [x])[..|s|] == s;
  }

  /** Deduplicating twice in a row is deduplicating once. */
  lemma {:induction false} DedupAppend<T>(s: seq<T>, z: seq<T>)
    ensures Dedup(Dedup(s) + z) == Dedup(s + z)
  {
    if |z| == 0 {
      assert Dedup(s) + z == Dedup(s);
      assert s + z == s;
      DedupOfNoDup(Dedup(s));
    } else {
      var init, x := z[..|z| - 1], z[|z| - 1];
      DedupAppend(s, init);
      DedupSnocCongruent(Dedup(s) + init, s + init, x);
      AppendSnoc(Dedup(s), z);
      AppendSnoc(s, z);
    }
  }

  lemma AppendSnoc<T>(a: seq<T>, z: seq<T>)
    requires |z| > 0
    ensures a + z == (a + z[..|z| - 1]) + [z[|z| - 1]]
  {
    assert z == z[..|z| - 1] + [z[|z| - 1]];
  }

  lemma DedupSnocCongruent<T>(l: seq<T>, r: seq<T>, x: T)
    requires Dedup(l) == Dedup(r)
    ensures Dedup(l + [x]) == Dedup(r + [x])
  {
    DedupSnoc(l, x);
    DedupSnoc(r, x);
  }

  /** Merging keeps keys unique and the keys of the left operand in front, in their order. */
  lemma MergeKeepsOrder(a: seq<Entry>, b: seq<Entry>)
    requires UniqueKeys(a)
    ensures UniqueKeys(Merge(a, b))
    ensures |Keys(a)| <= |Keys(Merge(a, b))| && Keys(Merge(a, b))[..|Keys(a)|] == Keys(a)
    ensures forall i :: 0 <= i < |Keys(b)| ==> HasKey(Merge(a, b), Keys(b)[i])
    ensures forall i :: 0 <= i < |Keys(Merge(a, b))| ==>
      HasKey(a, Keys(Merge(a, b))[i]) || HasKey(b, Keys(Merge(a, b))[i])
  {
    MergeKeys(a, b);
    DedupKeepsPrefix(Keys(a), Keys(b));
  }

  /** Every entry of a merge comes from one of the two operands. */
  lemma {:induction false} MergeEntriesFrom(a: seq<Entry>, b: seq<Entry>)
    ensures forall i :: 0 <= i < |Merge(a, b)| ==> Merge(a, b)[i] in a || Merge(a, b)[i] in b
  {
    if |b| > 0 {
      MergeEntriesFrom(a, b[..|b| - 1]);
      assert b == b[..|b| - 1] + [b[|b| - 1]];
    }
  }

  /** `Hash[pairs]` of pairs whose keys are already unique is those pairs, in order. */
  lemma {:induction false} FromPairsUnique(pairs: seq<Entry>)
    requires UniqueKeys(pairs)
    ensures FromPairs(pairs) == pairs
  {
    if |pairs| > 0 {
      var init := pairs[..|pairs| - 1];
      assert Keys(pairs) == Keys(init) + [pairs[|pairs| - 1].key];
      assert UniqueKeys(init) by {
        assert forall i :: 0 <= i < |init| ==> Keys(init)[i] == Keys(pairs)[i];
      }
      FromPairsUnique(init);
      assert !HasKey(init, pairs[|pairs| - 1].key);
      assert pairs == init + [pairs[|pairs| - 1]];
    }
  }

  // ---------------------------------------------------------------------
  // Conversions
  // ---------------------------------------------------------------------

  /** A value `to_s` renders without Ruby's `inspect` format (not an Array, not a Hash). */
  predicate Scalar(v: Value)
  {
    !v.Arr? && !v.Hash?
  }

  /** A Ruby Numeric: an Integer, or a Float with a positive denominator. */
  predicate Numeric(v: Value)
  {
    v.Int? || (v.Float? && v.den > 0)
  }

  /** Ruby truthiness: everything except `nil` and `false`. */
  predicate Truthy(v: Value)
  {
    !v.Nil? && v != Bool(false)
  }

  /** `to_s` (and string interpolation) of a scalar. */
  function ToS(v: Value): string
    requires Scalar(v)
  {
    match v
    case Nil => ""
    case Bool(b) => if b then "true" else "false"
    case Int(i) => IntToString(i)
    case Float(_, _, text) => text
    case Str(s) => s
    case Sym(name) => name
    case Obj(text) => text
  }

  /**
    `Numeric#to_i`: an Integer is itself; a Float is truncated toward zero
    (Ruby truncates, while Dafny's `/` rounds toward negative infinity for a
    negative numerator, so the two cases are written out).
  */
  function ToI(v: Value): (r: int)
    requires Numeric(v)
    ensures v.Int? ==> r == v.i
    ensures v.Float? && v.num >= 0 ==> 0 <= r && r * v.den <= v.num < (r + 1) * v.den
    ensures v.Float? && v.num < 0 ==> r <= 0 && (-r) * v.den <= -v.num < (-r + 1) * v.den
  {
    if v.Int? then v.i
    else if v.num >= 0 then
      DivBounds(v.num, v.den);
      v.num / v.den
    else
      DivBounds(-v.num, v.den);
      -((-v.num) / v.den)
  }

  lemma DivBounds(n: nat, d: int)
    requires d > 0
    ensures n / d >= 0 && (n / d) * d <= n < (n / d + 1) * d
  {
  }
}
