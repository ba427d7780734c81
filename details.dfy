/**
 * The detail table of a health outcome: an insertion-ordered map from string keys
 * to values, as a `LinkedHashMap<String, Object>` behaves. A key keeps the position
 * of its first insertion; writing it again only replaces its value.
 */
module DetailTables {
  import opened Wrappers
  import opened Hashing

  /** A detail value: a string, or any other object, known only by an identity. */
  datatype Value = Text(text: string) | Other(id: nat)

  /** Keys in insertion order, and the value each key maps to. */
  datatype Table = Table(keys: seq<string>, entries: map<string, Value>)

  /**
   * The order lists every mapped key exactly once (a set, seen as a multiset,
   * holds each of its members once).
   */
  predicate Valid(t: Table)
  {
    multiset(t.keys) == multiset(t.entries.Keys)
  }

  type Details = t: Table | Valid(t) witness Table([], map[])

  const Empty: Details := Table([], map[])

  /** A key is in the order exactly when it is mapped. */
  lemma ListedIffMapped(t: Details, k: string)
    ensures k in t.keys <==> k in t.entries
  {
    assert k in t.keys <==> k in multiset(t.keys);
    assert k in t.entries <==> k in multiset(t.entries.Keys);
  }

  lemma ListedAreMapped(t: Details)
    ensures forall i | 0 <= i < |t.keys| :: t.keys[i] in t.entries
  {
    forall i | 0 <= i < |t.keys| ensures t.keys[i] in t.entries {
      ListedIffMapped(t, t.keys[i]);
    }
  }

  /** `get(key)`: the value mapped to `k`, or `None` where Java returns null. */
  function Get(t: Details, k: string): (r: Option<Value>)
    ensures r.Some? <==> k in t.keys
  {
    ListedIffMapped(t, k);
    if k in t.entries then Some(t.entries[k]) else None
  }

  /** `isEmpty()`. */
  predicate IsEmpty(t: Details)
  {
    t.entries == map[]
  }

  /** A table is empty exactly when it lists no key. */
  lemma IsEmptyIffNoKeys(t: Details)
    ensures IsEmpty(t) <==> t.keys == []
  {
    if t.keys != [] {
      ListedIffMapped(t, t.keys[0]);
    }
    if t.entries != map[] {
      var k :| k in t.entries;
      ListedIffMapped(t, k);
    }
  }

  /**
   * `put(k, v)`: afterwards `k` maps to `v` and every other key is unchanged; a key
   * already present keeps its position, a new key goes at the end.
   */
  function Put(t: Details, k: string, v: Value): (r: Details)
    ensures Get(r, k) == Some(v)
    ensures forall j :: j != k ==> Get(r, j) == Get(t, j)
    ensures k in t.entries ==> r.keys == t.keys
    ensures k !in t.entries ==> r.keys == t.keys + [k]
    ensures r.entries.Keys == t.entries.Keys + {k}
  {
    if k in t.entries then
      assert t.entries[k := v].Keys == t.entries.Keys;
      Table(t.keys, t.entries[k := v])
    else
      assert t.entries[k := v].Keys == t.entries.Keys + {k};
      assert multiset(t.entries.Keys + {k}) == multiset(t.entries.Keys) + multiset{k};
      assert multiset(t.keys + [k]) == multiset(t.keys) + multiset{k};
      Table(t.keys + [k], t.entries[k := v])
  }

  /**
   * The mapping after a put is the old mapping updated at `k`. Kept apart from
   * `Put`'s contract so that callers reason about one map update at a time.
   */
  lemma PutEntries(t: Details, k: string, v: Value)
    ensures Put(t, k, v).entries == t.entries[k := v]
  {
  }

  /** Puts of two different keys commute, up to the order the keys are listed in. */
  lemma PutCommutes(t: Details, k1: string, v1: Value, k2: string, v2: Value)
    requires k1 != k2
    ensures Put(Put(t, k1, v1), k2, v2).entries == Put(Put(t, k2, v2), k1, v1).entries
  {
    PutEntries(t, k1, v1);
    PutEntries(Put(t, k1, v1), k2, v2);
    PutEntries(t, k2, v2);
    PutEntries(Put(t, k2, v2), k1, v1);
    assert t.entries[k1 := v1][k2 := v2] == t.entries[k2 := v2][k1 := v1];
  }

  /**
   * The keys of `ks` that are not in `seen`, each at its first occurrence, in the
   * order of `ks`: the keys that a run of puts appends to a table.
   */
  function Unseen(ks: seq<string>, seen: set<string>): seq<string>
    decreases |ks|
  {
    if ks == [] then []
    else if ks[0] in seen then Unseen(ks[1..], seen)
    else [ks[0]] + Unseen(ks[1..], seen + {ks[0]})
  }

  /** Keys that list a set once each, none of them seen, are all appended. */
  lemma {:induction false} UnseenOfFresh(ks: seq<string>, keys: set<string>, seen: set<string>)
    requires multiset(ks) == multiset(keys)
    requires keys !! seen
    ensures Unseen(ks, seen) == ks
    decreases |ks|
  {
    if ks != [] {
      var k := ks[0];
      assert ks == [k] + ks[1..];
      assert k in multiset(keys);
      assert multiset(ks[1..]) == multiset(ks) - multiset{k};
      assert multiset(keys - {k}) == multiset(keys) - multiset{k};
      UnseenOfFresh(ks[1..], keys - {k}, seen + {k});
    }
  }

  /** One step of `Unseen`: a key is appended unless it was seen, and is seen from then on. */
  lemma UnseenStep(keys: seq<string>, seen: set<string>, k: string, rest: seq<string>)
    ensures (if k in seen then keys else keys + [k]) + Unseen(rest, seen + {k})
         == keys + Unseen([k] + rest, seen)
  {
    assert ([k] + rest)[1..] == rest;
    if k in seen {
      assert seen + {k} == seen;
    } else {
      assert (keys + [k]) + Unseen(rest, seen + {k}) == keys + ([k] + Unseen(rest, seen + {k}));
    }
  }

  /** Applies a run of `put(k, v)` calls, in order. */
  function PutEach(t: Details, puts: seq<(string, Value)>): Details
    decreases |puts|
  {
    if puts == [] then t
    else PutEach(Put(t, puts[0].0, puts[0].1), puts[1..])
  }

  /** The keys of a run of puts, in order. */
  function KeysOf(puts: seq<(string, Value)>): seq<string>
    decreases |puts|
  {
    if puts == [] then [] else [puts[0].0] + KeysOf(puts[1..])
  }

  /** The value of the last put for `k` in `puts`, if there is one. */
  function LastPut(puts: seq<(string, Value)>, k: string): Option<Value>
    decreases |puts|
  {
    if puts == [] then None
    else
      var later := LastPut(puts[1..], k);
      if later.Some? then later
      else if puts[0].0 == k then Some(puts[0].1)
      else None
  }

  /** After a run of puts, each key maps to the value of its last put, or else as before. */
  lemma {:induction false} PutEachLastWins(t: Details, puts: seq<(string, Value)>, k: string)
    ensures Get(PutEach(t, puts), k) == if LastPut(puts, k).Some? then LastPut(puts, k) else Get(t, k)
    decreases |puts|
  {
    if puts != [] {
      PutEachLastWins(Put(t, puts[0].0, puts[0].1), puts[1..], k);
    }
  }

  /** A run of puts keeps the old order and appends each new key where it is first put. */
  lemma {:induction false} PutEachOrder(t: Details, puts: seq<(string, Value)>)
    ensures PutEach(t, puts).keys == t.keys + Unseen(KeysOf(puts), t.entries.Keys)
    decreases |puts|
  {
    if puts != [] {
      PutEachOrder(Put(t, puts[0].0, puts[0].1), puts[1..]);
      UnseenStep(t.keys, t.entries.Keys, puts[0].0, KeysOf(puts[1..]));
    }
  }

  /** Two runs of puts one after the other are one run of puts. */
  lemma {:induction false} PutEachConcat(t: Details, a: seq<(string, Value)>, b: seq<(string, Value)>)
    ensures PutEach(t, a + b) == PutEach(PutEach(t, a), b)
    decreases |a|
  {
    if a == [] {
      assert a + b == b;
    } else {
      assert (a + b)[0] == a[0] && (a + b)[1..] == a[1..] + b;
      PutEachConcat(Put(t, a[0].0, a[0].1), a[1..], b);
    }
  }

  /** The entries of a table, as a run of puts, in the table's order. */
  function Pairs(ks: seq<string>, m: map<string, Value>): seq<(string, Value)>
    decreases |ks|
  {
    if ks == [] then []
    else (if ks[0] in m then [(ks[0], m[ks[0]])] else []) + Pairs(ks[1..], m)
  }

  /** Listing mapped keys as puts keeps their order, and the last put for a key carries its value. */
  lemma {:induction false} PairsFacts(ks: seq<string>, m: map<string, Value>, k: string)
    requires forall i | 0 <= i < |ks| :: ks[i] in m
    ensures KeysOf(Pairs(ks, m)) == ks
    ensures LastPut(Pairs(ks, m), k) == if k in ks then Some(m[k]) else None
    decreases |ks|
  {
    if ks != [] {
      PairsFacts(ks[1..], m, k);
      var p := Pairs(ks, m);
      assert p == [(ks[0], m[ks[0]])] + Pairs(ks[1..], m);
      assert p[1..] == Pairs(ks[1..], m);
      assert k in ks <==> k == ks[0] || k in ks[1..];
    }
  }

  /**
   * `putAll(src)`: puts the entries of `src` one by one in `src`'s order. The result
   * maps every key of `src` to its value there and every other key as before; the
   * old keys keep their positions and the new ones follow in `src`'s order.
   */
  function PutAll(t: Details, src: Details): (r: Details)
    ensures forall k :: Get(r, k) == if k in src.entries then Get(src, k) else Get(t, k)
    ensures r.entries == t.entries + src.entries
    ensures r.keys == t.keys + Unseen(src.keys, t.entries.Keys)
  {
    ListedAreMapped(src);
    var puts := Pairs(src.keys, src.entries);
    var r := PutEach(t, puts);
    PairsFacts(src.keys, src.entries, "");
    PutEachOrder(t, puts);
    assert forall k :: Get(r, k) == if k in src.entries then Get(src, k) else Get(t, k) by {
      forall k ensures Get(r, k) == if k in src.entries then Get(src, k) else Get(t, k) {
        PutEachLastWins(t, puts, k);
        PairsFacts(src.keys, src.entries, k);
        ListedIffMapped(src, k);
      }
    }
    assert r.entries == t.entries + src.entries by {
      forall k | k in r.entries || k in t.entries + src.entries
        ensures k in r.entries && k in t.entries + src.entries && r.entries[k] == (t.entries + src.entries)[k]
      {
        assert Get(r, k) == if k in src.entries then Get(src, k) else Get(t, k);
      }
    }
    r
  }

  /** Copying a table into an empty one, entry by entry, gives the same table. */
  lemma PutAllIntoEmpty(src: Details)
    ensures PutAll(Empty, src) == src
  {
    var r := PutAll(Empty, src);
    UnseenOfFresh(src.keys, src.entries.Keys, {});
    assert r.keys == src.keys;
    assert r.entries == src.entries;
  }

  // Map.hashCode(): the sum, with 32-bit wrap-around, of key.hashCode() ^ value.hashCode()
  // over the entries, taken in the table's iteration order.

  /** `hashCode()` of a detail value; a non-string is hashed through its identity. */
  function ValueHash(v: Value): nat
  {
    match v
    case Text(s) => StringHash(s)
    case Other(id) => Wrap(id)
  }

  /** `Map.Entry.hashCode()`: key hash xor value hash. */
  function EntryHash(k: string, v: Value): nat
  {
    Xor(StringHash(k), ValueHash(v), 32)
  }

  /** The sum of `w` over the keys `ks`, as an unbounded integer. */
  function Sum(ks: seq<string>, w: string -> int): int
    decreases |ks|
  {
    if ks == [] then 0 else w(ks[0]) + Sum(ks[1..], w)
  }

  /** `Map.hashCode()`; wrapping the whole sum once gives the same bits as wrapping each addition. */
  function HashCode(t: Details): (h: nat)
    ensures h < Modulus
    ensures t.keys == [] ==> h == 0
  {
    Wrap(Sum(t.keys, (k: string) => if k in t.entries then EntryHash(k, t.entries[k]) else 0))
  }

  lemma {:induction false} SumConcat(a: seq<string>, b: seq<string>, w: string -> int)
    ensures Sum(a + b, w) == Sum(a, w) + Sum(b, w)
    decreases |a|
  {
    if a == [] {
      assert a + b == b;
    } else {
      assert (a + b)[1..] == a[1..] + b;
      SumConcat(a[1..], b, w);
    }
  }

  /** The sum is the weight at `i` plus the sum over the other keys. */
  lemma SumRemove(ks: seq<string>, i: nat, w: string -> int)
    requires i < |ks|
    ensures Sum(ks, w) == w(ks[i]) + Sum(ks[..i] + ks[i + 1..], w)
  {
    assert ks == ks[..i] + [ks[i]] + ks[i + 1..];
    SumConcat(ks[..i] + [ks[i]], ks[i + 1..], w);
    SumConcat(ks[..i], [ks[i]], w);
    SumConcat(ks[..i], ks[i + 1..], w);
  }

  /** A sum does not depend on the order of the keys summed over. */
  lemma {:induction false} SumPermutation(ks1: seq<string>, ks2: seq<string>, w: string -> int)
    requires multiset(ks1) == multiset(ks2)
    ensures Sum(ks1, w) == Sum(ks2, w)
    decreases |ks1|
  {
    if ks1 == [] {
      assert |multiset(ks2)| == 0;
    } else {
      var k := ks1[0];
      assert k in multiset(ks2);
      var i :| 0 <= i < |ks2| && ks2[i] == k;
      var rest2 := ks2[..i] + ks2[i + 1..];
      SumRemove(ks2, i, w);
      assert ks2 == ks2[..i] + [k] + ks2[i + 1..];
      assert multiset(ks2) == multiset(rest2) + multiset{k};
      assert ks1 == [k] + ks1[1..];
      assert multiset(ks1) == multiset{k} + multiset(ks1[1..]);
      assert multiset(ks1[1..]) == multiset(ks1) - multiset{k};
      assert multiset(rest2) == multiset(ks2) - multiset{k};
      SumPermutation(ks1[1..], rest2, w);
    }
  }

  /** Two tables with the same entries hash alike, whatever their insertion order. */
  lemma HashCodeIgnoresOrder(t1: Details, t2: Details)
    requires t1.entries == t2.entries
    ensures HashCode(t1) == HashCode(t2)
  {
    SumPermutation(t1.keys, t2.keys, (k: string) => if k in t1.entries then EntryHash(k, t1.entries[k]) else 0);
  }
}
