/** Object-storage keys of chunk and snapshot files. */
module ObjectKeys {
  import opened Records

  const SUFFIX: string := ".netsy"
  const PARTITIONS: int := 10000

  // ---- Formatting ----

  function Digit(d: int): char
    requires 0 <= d < 10
  {
    '0' + d as char
  }

  function Decimal(n: nat): string {
    if n < 10 then [Digit(n)] else Decimal(n / 10) + [Digit(n % 10)]
  }

  /** Zero-padded to at least `width` characters. */
  function Padded(s: string, width: nat): string
    decreases width - |s|
  {
    if |s| >= width then s else Padded("0" + s, width)
  }

  function FileName(revision: nat): string {
    Padded(Decimal(revision), 19) + SUFFIX
  }

  function ChunkKey(revision: nat): string {
    "chunks/" + Padded(Decimal(revision % PARTITIONS), 4) + "/" + FileName(revision)
  }

  function SnapshotKey(revision: nat): string {
    "snapshots/" + FileName(revision)
  }

  // ---- Parsing ----

  /** The part after the last slash. */
  function LastPart(key: string): string {
    if key == "" || key[|key| - 1] == '/' then "" else LastPart(key[..|key| - 1]) + [key[|key| - 1]]
  }

  predicate IsDigit(c: char) {
    '0' <= c <= '9'
  }

  predicate Digits(s: string) {
    forall i | 0 <= i < |s| :: IsDigit(s[i])
  }

  function Value(s: string): nat
    requires Digits(s)
  {
    if s == "" then 0 else Value(s[..|s| - 1]) * 10 + (s[|s| - 1] - '0') as int
  }

  /** strconv.ParseInt(s, 10, 64). */
  function ParseInt(s: string): Option<int> {
    if s == "" then None
    else
      var negative := s[0] == '-';
      var digits := if s[0] == '-' || s[0] == '+' then s[1..] else s;
      if digits == "" || !Digits(digits) then None
      else
        var magnitude: int := Value(digits);
        var v := if negative then -magnitude else magnitude;
        if v < -MAX_INT64 - 1 || v > MAX_INT64 then None else Some(v)
  }

  function ParseRevisionFromKey(key: string): Option<int> {
    var name := LastPart(key);
    if |name| < |SUFFIX| || name[|name| - |SUFFIX|..] != SUFFIX then None
    else ParseInt(name[..|name| - |SUFFIX|])
  }

  // ---- Round trip ----

  lemma {:induction false} DecimalValue(n: nat)
    ensures Digits(Decimal(n)) && Decimal(n) != "" && Value(Decimal(n)) == n
  {
    if n < 10 {
      assert Decimal(n)[..0] == "";
    } else {
      DecimalValue(n / 10);
      var s := Decimal(n);
      assert s[..|s| - 1] == Decimal(n / 10);
    }
  }

  lemma {:induction false} LeadingZero(s: string)
    requires Digits(s)
    ensures Digits("0" + s) && Value("0" + s) == Value(s)
  {
    var z := "0" + s;
    if s == "" {
      assert z[..|z| - 1] == "";
    } else {
      LeadingZero(s[..|s| - 1]);
      assert z[..|z| - 1] == "0" + s[..|s| - 1];
    }
  }

  lemma {:induction false} PaddedValue(s: string, width: nat)
    requires Digits(s) && s != ""
    ensures Digits(Padded(s, width)) && Padded(s, width) != "" && Value(Padded(s, width)) == Value(s)
    decreases width - |s|
  {
    if |s| < width {
      LeadingZero(s);
      PaddedValue("0" + s, width);
    }
  }

  lemma {:induction false} LastPartOf(dir: string, name: string)
    requires '/' !in name
    ensures LastPart(dir + "/" + name) == name
  {
    var key := dir + "/" + name;
    if name != "" {
      assert key[..|key| - 1] == dir + "/" + name[..|name| - 1];
      LastPartOf(dir, name[..|name| - 1]);
    }
  }

  lemma FileNameParses(dir: string, revision: nat)
    requires revision <= MAX_INT64
    ensures ParseRevisionFromKey(dir + "/" + FileName(revision)) == Some(revision)
  {
    var digits := Padded(Decimal(revision), 19);
    DecimalValue(revision);
    PaddedValue(Decimal(revision), 19);
    var name := FileName(revision);
    assert '/' !in name by {
      assert forall i | 0 <= i < |digits| :: digits[i] != '/';
    }
    LastPartOf(dir, name);
    assert name[|name| - |SUFFIX|..] == SUFFIX && name[..|name| - |SUFFIX|] == digits;
  }

  /** Every revision of the source's range is read back from its key. */
  lemma KeysRoundTrip(revision: nat)
    requires revision <= MAX_INT64
    ensures ParseRevisionFromKey(ChunkKey(revision)) == Some(revision)
    ensures ParseRevisionFromKey(SnapshotKey(revision)) == Some(revision)
  {
    hide FileName, ParseRevisionFromKey, Decimal, Padded;
    var partition := Padded(Decimal(revision % PARTITIONS), 4);
    FileNameParses("chunks/" + partition, revision);
    assert "chunks/" + partition + "/" + FileName(revision) == ChunkKey(revision);
    FileNameParses("snapshots", revision);
    assert "snapshots" + "/" + FileName(revision) == SnapshotKey(revision);
  }

  /** So a create-only write is per revision and per kind. */
  lemma KeysInjective(a: nat, b: nat)
    requires a <= MAX_INT64 && b <= MAX_INT64
    ensures ChunkKey(a) == ChunkKey(b) ==> a == b
    ensures SnapshotKey(a) == SnapshotKey(b) ==> a == b
    ensures ChunkKey(a) != SnapshotKey(b)
  {
    KeysRoundTrip(a);
    KeysRoundTrip(b);
    assert ChunkKey(a)[0] == 'c' && SnapshotKey(b)[0] == 's';
  }
}
