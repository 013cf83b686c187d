/** Badger as the index database sees it: a finite map over byte strings whose
    iterators visit keys in lexicographic order, forwards or in reverse. */
module Badger {
  import opened Prelude
  import opened Bytes

  type Key = ByteString

  /** it.Seek on a reverse iterator: the greatest stored key at or below `bound`. */
  method ReverseSeek<V>(db: map<Key, V>, bound: Key) returns (found: Option<Key>)
    ensures found.None? ==> forall k :: k in db ==> !AtMost(k, bound)
    ensures found.Some? ==> found.value in db && AtMost(found.value, bound)
    ensures found.Some? ==> forall k :: k in db && AtMost(k, bound) ==> AtMost(k, found.value)
  {
    found := None;
    var rest := db.Keys;
    while rest != {}
      invariant rest <= db.Keys
      invariant found.Some? ==> found.value in db && AtMost(found.value, bound)
      invariant forall k :: k in db && k !in rest && AtMost(k, bound) ==> found.Some? && AtMost(k, found.value)
      decreases rest
    {
      var k :| k in rest;
      rest := rest - {k};
      if AtMost(k, bound) && (found.None? || AtMost(found.value, k)) {
        forall k' | k' in db && k' !in rest && AtMost(k', bound) ensures AtMost(k', k) {
          if k' != k {
            AtMostTransitive(k', found.value, k);
          }
        }
        found := Some(k);
      } else if found.Some? {
        LessTotal(k, found.value);
      }
    }
  }

  /** it.Seek on a forward iterator (from the bound itself) or it.Next (past it). */
  method SeekForward<V>(db: map<Key, V>, bound: Key, past: bool) returns (found: Option<Key>)
    ensures found.None? ==> forall k :: k in db ==> !Reached(k, bound, past)
    ensures found.Some? ==> found.value in db && Reached(found.value, bound, past)
    ensures found.Some? ==> forall k :: k in db && Reached(k, bound, past) ==> AtMost(found.value, k)
  {
    found := None;
    var rest := db.Keys;
    while rest != {}
      invariant rest <= db.Keys
      invariant found.Some? ==> found.value in db && Reached(found.value, bound, past)
      invariant forall k :: k in db && k !in rest && Reached(k, bound, past) ==> found.Some? && AtMost(found.value, k)
      decreases rest
    {
      var k :| k in rest;
      rest := rest - {k};
      if Reached(k, bound, past) && (found.None? || AtMost(k, found.value)) {
        forall k' | k' in db && k' !in rest && Reached(k', bound, past) ensures AtMost(k, k') {
          if k' != k {
            AtMostTransitive(k, found.value, k');
          }
        }
        found := Some(k);
      } else if found.Some? {
        LessTotal(k, found.value);
      }
    }
  }

  predicate Reached(k: Key, bound: Key, past: bool) {
    if past then Less(bound, k) else AtMost(bound, k)
  }

  predicate Ascending(ks: seq<Key>) {
    forall i, j :: 0 <= i < j < |ks| ==> Less(ks[i], ks[j])
  }

  /** The loop every full scan runs: Seek(prefix), then Next while ValidForPrefix. */
  method Scan<V>(db: map<Key, V>, prefix: Key) returns (ks: seq<Key>)
    ensures Ascending(ks)
    ensures forall k :: k in ks <==> k in db && HasPrefix(k, prefix)
  {
    ks := [];
    var cur := SeekForward(db, prefix, false);
    ghost var ahead := db.Keys;
    forall k | k in db && HasPrefix(k, prefix) ensures AtMost(prefix, k) {
      PrefixComesFirst(prefix, k);
    }
    while cur.Some? && HasPrefix(cur.value, prefix)
      invariant Ascending(ks)
      invariant forall k :: k in ks ==> k in db && HasPrefix(k, prefix)
      invariant cur.Some? ==> cur.value in db && AtMost(prefix, cur.value)
      invariant cur.Some? ==> forall k :: k in ks ==> Less(k, cur.value)
      invariant forall k :: k in db && HasPrefix(k, prefix) ==>
                  k in ks || (cur.Some? && AtMost(cur.value, k))
      invariant ahead <= db.Keys
      invariant cur.Some? ==> forall k :: k in db && AtMost(cur.value, k) ==> k in ahead
      decreases ahead
    {
      var k := cur.value;
      ghost var wasAhead := ahead;
      cur := SeekForward(db, k, true);
      ahead := set x | x in wasAhead && Less(k, x);
      LessIrreflexive(k);
      assert k in wasAhead && k !in ahead;
      if cur.Some? {
        AtMostTransitive(prefix, k, cur.value);
        forall x | x in ks ensures Less(x, cur.value) {
          LessTransitive(x, k, cur.value);
        }
        forall x | x in db && AtMost(cur.value, x) ensures x in ahead {
          if x != cur.value {
            LessTransitive(k, cur.value, x);
          }
        }
      }
      ks := ks + [k];
    }
    if cur.Some? {
      forall k | k in db && HasPrefix(k, prefix) ensures k in ks {
        if k !in ks {
          PrefixIsConvex(prefix, prefix, cur.value, k);
        }
      }
    }
  }

  lemma {:induction false} PrefixComesFirst(p: Key, k: Key)
    requires HasPrefix(k, p)
    ensures AtMost(p, k)
  {
    if p != [] {
      assert HasPrefix(k[1..], p[1..]);
      PrefixComesFirst(p[1..], k[1..]);
      assert k == [k[0]] + k[1..] && p == [p[0]] + p[1..];
    }
  }
}
