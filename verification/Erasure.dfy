/** Value erasure: the UPDATE of ExecuteCompaction, and what a table keeps under
    any number of them. */
module Erasure {
  import opened Bytes
  import opened Records
  import opened Mvcc

  function Erase(r: Record, now: int): Record {
    r.(value := [], compactedAt := Some(now))
  }

  /** Some newer row of the same key exists, whatever its status. */
  predicate Superseded(t: Table, r: nat)
    requires r in t
  {
    exists x | x in t :: x > r && t[x].key == t[r].key
  }

  predicate Compactable(t: Table, c: int, r: nat)
    requires r in t
  {
    r <= c && t[r].compactedAt.None? && (t[r].deleted || Superseded(t, r))
  }

  /** ExecuteCompaction: erase every compactable row at or below `c`. */
  function Compact(t: Table, c: int, now: int): Table {
    if c <= 0 then t
    else map r | r in t :: if Compactable(t, c, r) then Erase(t[r], now) else t[r]
  }

  // ---- What a compaction does to single rows ----

  /** `b` is `a`, or `a` erased. */
  predicate RowEvolves(a: Record, b: Record) {
    b == a || (a.compactedAt.None? && b.compactedAt.Some? && b == Erase(a, b.compactedAt.value))
  }

  lemma EvolvesTransitive(a: Record, b: Record, c: Record)
    requires RowEvolves(a, b) && RowEvolves(b, c)
    ensures RowEvolves(a, c)
  {
  }

  lemma CompactEvolves(t: Table, c: int, now: int)
    ensures Evolved(t, Compact(t, c, now))
  {
  }

  /** At and below the revision only the newest row of a key keeps its value, and
      a tombstone does not; nothing else changes. */
  lemma CompactExact(t: Table, c: int, now: int)
    ensures var u := Compact(t, c, now);
            && u.Keys == t.Keys
            && forall r | r in t ::
                 if t[r].compactedAt.None? && 0 < c && r <= c && (t[r].deleted || r < LatestRev(t, t[r].key, MaxRev(t)))
                 then u[r] == t[r].(value := [], compactedAt := Some(now))
                 else u[r] == t[r]
  {
    forall r | r in t ensures Superseded(t, r) <==> r < LatestRev(t, t[r].key, MaxRev(t)) {
    }
  }

  /** `u` is `t` with some rows erased. */
  predicate Evolved(t: Table, u: Table) {
    u.Keys == t.Keys && forall r | r in t :: RowEvolves(t[r], u[r])
  }

  /** `u` is the log `a` with some rows erased, each of them at or below `c`
      and a tombstone or superseded. */
  ghost predicate ErasedBelow(a: Table, u: Table, c: int) {
    && (forall r :: r in a <==> r in u)
    && forall r {:trigger a[r]} {:trigger u[r]} | r in a ::
      && RowEvolves(a[r], u[r])
      && (u[r] != a[r] ==> r <= c && (a[r].deleted || Superseded(a, r)))
  }

  /** Compacting further, at or below the bound, stays within the bound. */
  lemma CompactErases(a: Table, u: Table, c: int, d: int, now: int)
    requires ErasedBelow(a, u, c) && d <= c
    ensures ErasedBelow(a, Compact(u, d, now), c)
  {
    var v := Compact(u, d, now);
    forall r | r in a
      ensures RowEvolves(a[r], v[r]) && (v[r] != a[r] ==> r <= c && (a[r].deleted || Superseded(a, r)))
    {
      if d > 0 && Compactable(u, d, r) && !u[r].deleted {
        var x :| x in u && x > r && u[x].key == u[r].key;
        assert x in a && a[x].key == a[r].key;
      }
    }
  }

  /** The whole log is within the bound. */
  lemma CompactErasesLog(a: Table, u: Table, n: nat, c: int, now: int)
    requires ErasedBelow(a, u, n) && GapFree(a, n)
    ensures ErasedBelow(a, Compact(u, c, now), n)
  {
    if c <= n {
      CompactErases(a, u, n, c, now);
    } else {
      CompactErases(a, u, c, c, now);
    }
  }

  lemma ErasedLatest(a: Table, u: Table, c: int, k: Bytes)
    requires ErasedBelow(a, u, c)
    ensures MaxRev(u) == MaxRev(a) && LatestRev(u, k, MaxRev(u)) == LatestRev(a, k, MaxRev(a)) && LiveAt(u, k, MaxRev(u)) == LiveAt(a, k, MaxRev(a))
  {
    assert a.Keys == u.Keys;
    LatestRevCongruent(a, u, k, MaxRev(a));
  }

  lemma ErasedConflict(a: Table, u: Table, c: int, row: Record)
    requires ErasedBelow(a, u, c)
    ensures IndexConflict(u, row) == IndexConflict(a, row)
  {
    assert forall r | r in a :: u[r].key == a[r].key && u[r].createRevision == a[r].createRevision && u[r].prevRevision == a[r].prevRevision;
  }

  /** Erased rows keep their key, life and version, so the next insert cannot tell. */
  lemma InsertIgnoresErasure(a: Table, u: Table, c: int, q: Record, now: int)
    requires ErasedBelow(a, u, c)
    ensures InsertRow(u, q, now) == InsertRow(a, q, now)
  {
    ErasedLatest(a, u, c, q.key);
    hide LatestRev, MaxRev, LiveAt, Superseded;
    assert NewRow(u, q, now) == NewRow(a, q, now);
    ErasedConflict(a, u, c, NewRow(a, q, now));
  }

  lemma AppendErased(a: Table, u: Table, c: int, n: nat, row: Record)
    requires ErasedBelow(a, u, c) && GapFree(a, n)
    ensures ErasedBelow(a[n + 1 := row], u[n + 1 := row], c)
  {
    var b, v := a[n + 1 := row], u[n + 1 := row];
    forall r | r in b
      ensures RowEvolves(b[r], v[r]) && (v[r] != b[r] ==> r <= c && (b[r].deleted || Superseded(b, r)))
    {
      if r <= n && v[r] != b[r] && !a[r].deleted {
        var x :| x in a && x > r && a[x].key == a[r].key;
        assert x in b && b[x].key == b[r].key;
      }
    }
  }

  /** The live head of each key is untouched: a current read sees the same map. */
  lemma HeadsKept(a: Table, u: Table, c: int, n: nat)
    requires ErasedBelow(a, u, c) && GapFree(a, n)
    ensures StoreAt(u, n) == StoreAt(a, n)
  {
    forall k ensures (k in StoreAt(u, n) <==> k in StoreAt(a, n)) && (k in StoreAt(a, n) ==> StoreAt(u, n)[k] == StoreAt(a, n)[k]) {
      HeadKept(a, u, c, n, k);
    }
  }

  lemma HeadKept(a: Table, u: Table, c: int, n: nat, k: Bytes)
    requires ErasedBelow(a, u, c) && GapFree(a, n)
    ensures (k in StoreAt(u, n) <==> k in StoreAt(a, n)) && (k in StoreAt(a, n) ==> StoreAt(u, n)[k] == StoreAt(a, n)[k])
  {
    hide StoreAt;
    LatestRevCongruent(a, u, k, n);
    StoreLookup(a, n, k);
    StoreLookup(u, n, k);
    var h := LatestRev(a, k, n);
    if LiveAt(a, k, n) {
      assert !Superseded(a, h);
      assert u[h] == a[h];
    }
  }
}
