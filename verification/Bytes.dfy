/** Byte strings under the order of Go's bytes.Compare, which is also the order
    SQLite gives BLOB columns, and the ascending listing of a finite set of them. */
module Bytes {
  type Byte = b: int | 0 <= b < 256

  type Bytes = seq<Byte>

  /** bytes.Compare(a, b) < 0. */
  predicate Less(a: Bytes, b: Bytes) {
    b != [] && (a == [] || a[0] < b[0] || (a[0] == b[0] && Less(a[1..], b[1..])))
  }

  /** They agree up to position `i`, where `a` ends or has the smaller byte. */
  ghost predicate SmallerFrom(a: Bytes, b: Bytes, i: nat) {
    i <= |a| && i < |b| && a[..i] == b[..i] && (i == |a| || a[i] < b[i])
  }

  lemma {:induction false} SmallerIsLess(a: Bytes, b: Bytes, i: nat)
    requires SmallerFrom(a, b, i)
    ensures Less(a, b)
    decreases i
  {
    if i > 0 {
      assert a[0] == a[..i][0] && b[0] == b[..i][0];
      assert a[1..][..i - 1] == a[..i][1..] && b[1..][..i - 1] == b[..i][1..];
      SmallerIsLess(a[1..], b[1..], i - 1);
    }
  }

  lemma {:induction false} LessIsSmaller(a: Bytes, b: Bytes) returns (i: nat)
    requires Less(a, b)
    ensures SmallerFrom(a, b, i)
  {
    if a == [] || a[0] < b[0] {
      i := 0;
    } else {
      var j := LessIsSmaller(a[1..], b[1..]);
      i := j + 1;
      assert a[..i] == [a[0]] + a[1..][..j] && b[..i] == [b[0]] + b[1..][..j];
    }
  }

  /** bytes.Compare: a proper prefix is smaller, otherwise the first byte that
      differs decides. */
  lemma LessIsLexicographic(a: Bytes, b: Bytes)
    ensures Less(a, b) <==> exists i :: SmallerFrom(a, b, i)
  {
    if Less(a, b) {
      var i := LessIsSmaller(a, b);
    } else {
      forall i | SmallerFrom(a, b, i) ensures false {
        SmallerIsLess(a, b, i);
      }
    }
  }

  lemma {:induction false} LessIrreflexive(a: Bytes)
    ensures !Less(a, a)
  {
    if a != [] {
      LessIrreflexive(a[1..]);
    }
  }

  lemma {:induction false} LessTransitive(a: Bytes, b: Bytes, c: Bytes)
    requires Less(a, b) && Less(b, c)
    ensures Less(a, c)
  {
    if a != [] && a[0] == b[0] && b[0] == c[0] {
      LessTransitive(a[1..], b[1..], c[1..]);
    }
  }

  lemma {:induction false} LessTotal(a: Bytes, b: Bytes)
    ensures Less(a, b) || a == b || Less(b, a)
  {
    if a != [] && b != [] && a[0] == b[0] {
      LessTotal(a[1..], b[1..]);
      assert a == [a[0]] + a[1..];
      assert b == [b[0]] + b[1..];
    }
  }

  lemma LessAsymmetric(a: Bytes, b: Bytes)
    requires Less(a, b)
    ensures a != b && !Less(b, a)
  {
  }

  predicate Ascending(s: seq<Bytes>) {
    forall i, j | 0 <= i < j < |s| :: Less(s[i], s[j])
  }

  predicate IsLeast(k: Bytes, s: set<Bytes>) {
    k in s && forall x | x in s :: x == k || Less(k, x)
  }

  lemma {:induction false} LeastExists(s: set<Bytes>) returns (k: Bytes)
    requires s != {}
    ensures IsLeast(k, s)
  {
    k :| k in s;
    if s != {k} {
      var m := LeastExists(s - {k});
      LessTotal(k, m);
      if Less(m, k) {
        k := m;
      } else {
        forall x | x in s ensures x == k || Less(k, x) {
          if x != k && x != m {
            LessTransitive(k, m, x);
          }
        }
      }
    }
  }

  lemma LeastUnique(s: set<Bytes>, a: Bytes, b: Bytes)
    requires IsLeast(a, s) && IsLeast(b, s)
    ensures a == b
  {
    if a != b {
      LessAsymmetric(a, b);
    }
  }

  /** SELECT key ... ORDER BY key ASC over a set of distinct keys. */
  function Sorted(s: set<Bytes>): (r: seq<Bytes>)
    ensures |r| == |s|
    ensures forall k :: k in r <==> k in s
    ensures Ascending(r)
  {
    if s == {} then []
    else
      LeastExistsUniquely(s);
      var k :| IsLeast(k, s);
      var rest := Sorted(s - {k});
      [k] + rest
  }

  lemma LeastExistsUniquely(s: set<Bytes>)
    requires s != {}
    ensures exists k :: IsLeast(k, s)
    ensures forall a, b | IsLeast(a, s) && IsLeast(b, s) :: a == b
  {
    var k := LeastExists(s);
    forall a, b | IsLeast(a, s) && IsLeast(b, s) ensures a == b {
      LeastUnique(s, a, b);
    }
  }

  /** An ascending sequence is determined by its elements. */
  lemma {:induction false} AscendingUnique(a: seq<Bytes>, b: seq<Bytes>)
    requires Ascending(a) && Ascending(b)
    requires forall k :: k in a <==> k in b
    ensures a == b
  {
    assert (a != [] ==> a[0] in b) && (b != [] ==> b[0] in a);
    if a != [] && b != [] {
      HeadsAgree(a, b);
      forall k ensures k in a[1..] <==> k in b[1..] {
        TailMembers(a, k);
        TailMembers(b, k);
      }
      AscendingUnique(a[1..], b[1..]);
      assert a == [a[0]] + a[1..];
      assert b == [b[0]] + b[1..];
    }
  }

  lemma AscendingCount(s: seq<Bytes>)
    requires Ascending(s)
    ensures |set k | k in s| == |s|
  {
    AscendingUnique(s, Sorted(set k | k in s));
  }

  ghost function SmallerIn(s: set<Bytes>, k: Bytes): set<Bytes> {
    set x | x in s && Less(x, k)
  }

  /** A key's position in an ascending listing counts the smaller keys. */
  lemma PositionCountsSmaller(s: set<Bytes>, keys: seq<Bytes>, i: nat)
    requires Ascending(keys) && i < |keys| && forall k :: k in s <==> k in keys
    ensures |SmallerIn(s, keys[i])| == i
  {
    hide Less;
    forall j | i <= j < |keys| ensures !Less(keys[j], keys[i]) && keys[j] !in keys[..i] {
      NotBelow(keys, i, j);
    }
    var first := set k | k in keys[..i];
    forall k ensures k in SmallerIn(s, keys[i]) <==> k in first {
      if k in keys {
        var j :| 0 <= j < |keys| && keys[j] == k;
        assert j < i ==> keys[..i][j] == k;
      }
    }
    assert SmallerIn(s, keys[i]) == first;
    AscendingCount(keys[..i]);
  }

  lemma NotBelow(s: seq<Bytes>, i: nat, j: nat)
    requires Ascending(s) && i <= j < |s|
    ensures !Less(s[j], s[i]) && s[j] !in s[..i]
  {
    hide Less;
    LessIrreflexive(s[i]);
    if i < j {
      LessAsymmetric(s[i], s[j]);
    }
    forall k | 0 <= k < i ensures s[k] != s[j] {
      LessAsymmetric(s[k], s[j]);
    }
  }

  lemma TailMembers(a: seq<Bytes>, k: Bytes)
    requires a != [] && Ascending(a)
    ensures k in a[1..] <==> k in a && k != a[0]
  {
    if k in a[1..] {
      var i :| 0 <= i < |a| - 1 && a[1..][i] == k;
      assert Less(a[0], a[i + 1]);
      LessAsymmetric(a[0], k);
    }
    if k in a && k != a[0] {
      var i :| 0 <= i < |a| && a[i] == k;
      assert a[1..][i - 1] == k;
    }
  }

  lemma HeadsAgree(a: seq<Bytes>, b: seq<Bytes>)
    requires a != [] && b != [] && Ascending(a) && Ascending(b)
    requires forall k :: k in a <==> k in b
    ensures a[0] == b[0]
  {
    assert a[0] in b && b[0] in a;
    var i :| 0 <= i < |b| && b[i] == a[0];
    var j :| 0 <= j < |a| && a[j] == b[0];
    if i > 0 && j > 0 {
      assert Less(b[0], b[i]) && Less(a[0], a[j]);
      LessAsymmetric(a[0], b[0]);
    }
  }
}
