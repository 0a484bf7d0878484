/** Which keys a watch covers: the five-way isInRange against the half-open
    interval of the etcd v3 API field `range_end`. */
module KeyRange {
  import opened Bytes

  function TrimZeros(k: Bytes): Bytes {
    if k != [] && k[|k| - 1] == 0 then TrimZeros(k[..|k| - 1]) else k
  }

  /** The key with its last byte incremented, 0xff wrapping to 0x00. */
  function Bump(k: Bytes): Bytes
    requires k != []
  {
    k[..|k| - 1] + [if k[|k| - 1] == 255 then 0 else k[|k| - 1] + 1]
  }

  predicate ExactBranch(rangeKey: Bytes, rangeEnd: Bytes) {
    rangeEnd == [] || rangeEnd == rangeKey + [0]
  }

  predicate PrefixBranch(rangeKey: Bytes, rangeEnd: Bytes)
    requires rangeKey != []
  {
    !ExactBranch(rangeKey, rangeEnd) && rangeEnd != [0] && rangeEnd == Bump(rangeKey)
  }

  predicate IsInRange(key: Bytes, rangeKey: Bytes, rangeEnd: Bytes)
    requires rangeKey != []
  {
    if rangeEnd == [] || rangeEnd == rangeKey + [0] then key == TrimZeros(rangeKey)
    else if rangeKey == [0] && rangeEnd == [0] then true
    else if rangeEnd == [0] then !Less(key, rangeKey)
    else if |key| > 0 && rangeEnd == Bump(rangeKey) then rangeKey <= key
    else !Less(key, rangeKey) && Less(key, rangeEnd)
  }

  /** An empty end is the single key, "\0" is unbounded, anything else is the
      exclusive upper end. */
  predicate InInterval(key: Bytes, rangeKey: Bytes, rangeEnd: Bytes) {
    if rangeEnd == [] then key == rangeKey
    else if rangeEnd == [0] then !Less(key, rangeKey)
    else !Less(key, rangeKey) && Less(key, rangeEnd)
  }

  /** The range shapes the five-way test gets right. */
  predicate Faithful(rangeKey: Bytes, rangeEnd: Bytes)
    requires rangeKey != []
  {
    var last := rangeKey[|rangeKey| - 1];
    && (ExactBranch(rangeKey, rangeEnd) ==> last != 0)
    && (PrefixBranch(rangeKey, rangeEnd) ==> last != 255)
  }

  lemma {:induction false} SuccessorInterval(key: Bytes, k: Bytes)
    ensures !Less(key, k) && Less(key, k + [0]) <==> key == k
  {
    if k == [] {
      assert key != [] ==> !Less(key, [0]);
    } else {
      assert (k + [0])[1..] == k[1..] + [0];
      if key != [] {
        SuccessorInterval(key[1..], k[1..]);
        assert key == [key[0]] + key[1..];
        assert k == [k[0]] + k[1..];
      }
    }
  }

  lemma {:induction false} PrefixInterval(key: Bytes, k: Bytes)
    requires k != [] && k[|k| - 1] != 255
    ensures !Less(key, k) && Less(key, Bump(k)) <==> k <= key
  {
    if key != [] {
      if |k| > 1 {
        assert Bump(k)[1..] == Bump(k[1..]);
        PrefixInterval(key[1..], k[1..]);
        assert key == [key[0]] + key[1..];
        assert k == [k[0]] + k[1..];
      } else {
        assert !Less(key[1..], k[1..]) && !Less(key[1..], Bump(k)[1..]);
      }
    }
  }

  lemma InRangeIsInterval(key: Bytes, rangeKey: Bytes, rangeEnd: Bytes)
    requires key != [] && rangeKey != [] && Faithful(rangeKey, rangeEnd)
    ensures IsInRange(key, rangeKey, rangeEnd) <==> InInterval(key, rangeKey, rangeEnd)
  {
    if rangeEnd == rangeKey + [0] {
      SuccessorInterval(key, rangeKey);
    } else if PrefixBranch(rangeKey, rangeEnd) {
      PrefixInterval(key, rangeKey);
    } else if rangeKey == [0] {
      assert !Less(key[1..], rangeKey[1..]);
    }
  }

  /** An unfaithful range already errs on its own start key. */
  lemma UnfaithfulErrs(rangeKey: Bytes, rangeEnd: Bytes)
    requires rangeKey != [] && !Faithful(rangeKey, rangeEnd)
    ensures IsInRange(rangeKey, rangeKey, rangeEnd) != InInterval(rangeKey, rangeKey, rangeEnd)
  {
    LessIrreflexive(rangeKey);
    if ExactBranch(rangeKey, rangeEnd) {
      SuccessorInterval(rangeKey, rangeKey);
      TrimShortens(rangeKey);
    } else {
      WrappedIsBelow(rangeKey);
      LessAsymmetric(Bump(rangeKey), rangeKey);
    }
  }

  lemma TrimShortens(k: Bytes)
    requires k != [] && k[|k| - 1] == 0
    ensures |TrimZeros(k)| < |k|
  {
  }

  lemma {:induction false} WrappedIsBelow(k: Bytes)
    requires k != [] && k[|k| - 1] == 255
    ensures Less(Bump(k), k)
  {
    if |k| > 1 {
      assert Bump(k)[1..] == Bump(k[1..]);
      WrappedIsBelow(k[1..]);
    }
  }

  /** The test agrees with the interval on every key exactly when the exact
      branch has no trailing zero byte and the prefix branch no final 0xff. */
  lemma RangeExactIffFaithful(rangeKey: Bytes, rangeEnd: Bytes)
    requires rangeKey != []
    ensures Faithful(rangeKey, rangeEnd) <==>
            forall key: Bytes | key != [] :: IsInRange(key, rangeKey, rangeEnd) <==> InInterval(key, rangeKey, rangeEnd)
  {
    if Faithful(rangeKey, rangeEnd) {
      forall key: Bytes | key != [] ensures IsInRange(key, rangeKey, rangeEnd) <==> InInterval(key, rangeKey, rangeEnd) {
        InRangeIsInterval(key, rangeKey, rangeEnd);
      }
    } else {
      UnfaithfulErrs(rangeKey, rangeEnd);
    }
  }
}
