/** The fingerprint of a pool's desired state: allocations in a canonical order,
    and a short digest of the text for the outbox key. */
module PoolFingerprint {
  import opened Types
  import opened Keys

  // --- The order of project names ---

  /** Lexicographic order by character. */
  predicate Before(a: string, b: string) {
    if b == "" then false
    else if a == "" then true
    else a[0] < b[0] || (a[0] == b[0] && Before(a[1..], b[1..]))
  }

  lemma {:induction false} BeforeTotal(a: string, b: string)
    ensures Before(a, b) || a == b || Before(b, a)
    ensures !(Before(a, b) && Before(b, a))
    ensures a == b ==> !Before(a, b)
    decreases |a|
  {
    if a != "" && b != "" {
      BeforeTotal(a[1..], b[1..]);
      if a[0] == b[0] && a[1..] == b[1..] {
        assert a == [a[0]] + a[1..] && b == [b[0]] + b[1..];
      }
    }
  }

  lemma {:induction false} BeforeTransitive(a: string, b: string, c: string)
    requires Before(a, b) && Before(b, c)
    ensures Before(a, c)
    decreases |a|
  {
    if a != "" && a[0] == b[0] == c[0] {
      BeforeTransitive(a[1..], b[1..], c[1..]);
    }
  }

  // --- Sorting allocations by project ---

  type Allocations = seq<AllocationSpec>

  /** The stable insertion of one allocation behind those not after it. */
  function Insert(sorted: Allocations, x: AllocationSpec): Allocations {
    if sorted == [] || !Before(x.project, sorted[|sorted| - 1].project) then sorted + [x]
    else Insert(sorted[..|sorted| - 1], x) + [sorted[|sorted| - 1]]
  }

  function Sorted(allocs: Allocations): Allocations {
    if allocs == [] then [] else Insert(Sorted(allocs[..|allocs| - 1]), allocs[|allocs| - 1])
  }

  /** The store keys allocations by (pool, project). */
  predicate UniqueProjects(allocs: Allocations) {
    forall i, j | 0 <= i < j < |allocs| :: allocs[i].project != allocs[j].project
  }

  predicate Increasing(allocs: Allocations) {
    forall i, j | 0 <= i < j < |allocs| :: Before(allocs[i].project, allocs[j].project)
  }

  predicate SameElements(a: Allocations, b: Allocations) {
    (forall i | 0 <= i < |a| :: a[i] in b) && forall i | 0 <= i < |b| :: b[i] in a
  }

  lemma {:induction false} InsertElements(sorted: Allocations, x: AllocationSpec, y: AllocationSpec)
    ensures y in Insert(sorted, x) <==> y in sorted || y == x
    decreases |sorted|
  {
    if sorted != [] {
      var n := |sorted| - 1;
      assert sorted == sorted[..n] + [sorted[n]];
      InsertElements(sorted[..n], x, y);
    }
  }

  lemma {:induction false} InsertKeepsOrder(sorted: Allocations, x: AllocationSpec)
    requires Increasing(sorted) && forall i | 0 <= i < |sorted| :: sorted[i].project != x.project
    ensures Increasing(Insert(sorted, x))
    decreases |sorted|
  {
    if sorted != [] {
      var n := |sorted| - 1;
      var last, front := sorted[n], sorted[..n];
      BeforeTotal(x.project, last.project);
      if Before(x.project, last.project) {
        InsertKeepsOrder(front, x);
        var r := Insert(front, x);
        forall i | 0 <= i < |r| ensures Before(r[i].project, last.project) {
          InsertElements(front, x, r[i]);
        }
      } else {
        forall i | 0 <= i < |sorted| ensures Before(sorted[i].project, x.project) {
          if i < n {
            BeforeTransitive(sorted[i].project, last.project, x.project);
          }
        }
      }
    }
  }

  lemma {:induction false} SortedElements(allocs: Allocations, y: AllocationSpec)
    ensures y in Sorted(allocs) <==> y in allocs
    decreases |allocs|
  {
    if allocs != [] {
      var n := |allocs| - 1;
      SortedElements(allocs[..n], y);
      InsertElements(Sorted(allocs[..n]), allocs[n], y);
      assert allocs == allocs[..n] + [allocs[n]];
    }
  }

  lemma {:induction false} SortedIncreases(allocs: Allocations)
    requires UniqueProjects(allocs)
    ensures Increasing(Sorted(allocs))
    decreases |allocs|
  {
    if allocs != [] {
      var n := |allocs| - 1;
      var front := Sorted(allocs[..n]);
      SortedIncreases(allocs[..n]);
      forall i | 0 <= i < |front| ensures front[i].project != allocs[n].project {
        SortedElements(allocs[..n], front[i]);
      }
      InsertKeepsOrder(front, allocs[n]);
    }
  }

  lemma EmptyTogether(a: Allocations, b: Allocations)
    requires SameElements(a, b)
    ensures a == [] <==> b == []
  {
    if a != [] {
      assert a[0] in b;
    }
    if b != [] {
      assert b[0] in a;
    }
  }

  lemma SameLast(a: Allocations, b: Allocations)
    requires Increasing(a) && Increasing(b) && SameElements(a, b) && a != [] && b != []
    ensures a[|a| - 1] == b[|b| - 1]
  {
    var i :| 0 <= i < |b| && b[i] == a[|a| - 1];
    var j :| 0 <= j < |a| && a[j] == b[|b| - 1];
    BeforeTotal(a[|a| - 1].project, b[|b| - 1].project);
  }

  lemma FrontsAgree(a: Allocations, b: Allocations)
    requires Increasing(a) && SameElements(a, b) && a != [] && b != [] && a[|a| - 1] == b[|b| - 1]
    ensures forall i | 0 <= i < |a| - 1 :: a[i] in b[..|b| - 1]
  {
    forall i | 0 <= i < |a| - 1 ensures a[i] in b[..|b| - 1] {
      BeforeTotal(a[i].project, a[i].project);
      assert a[i] != a[|a| - 1] && a[i] in b;
    }
  }

  /** Strictly ordered sequences with the same elements are the same sequence. */
  lemma {:induction false} IncreasingUnique(a: Allocations, b: Allocations)
    requires Increasing(a) && Increasing(b) && SameElements(a, b)
    ensures a == b
    decreases |a|
  {
    EmptyTogether(a, b);
    if a != [] {
      SameLast(a, b);
      FrontsAgree(a, b);
      FrontsAgree(b, a);
      IncreasingUnique(a[..|a| - 1], b[..|b| - 1]);
      assert a == a[..|a| - 1] + [a[|a| - 1]] && b == b[..|b| - 1] + [b[|b| - 1]];
    }
  }

  function DesiredFingerprint(spec: PoolSpec, allocs: Allocations): Fingerprint {
    PoolText(spec, Sorted(allocs))
  }

  /** Whatever order the store lists a pool's allocations in, the fingerprint is
      the same; and it differs when the spec or an allocation does. */
  lemma FingerprintCanonical(spec: PoolSpec, a: Allocations, spec': PoolSpec, b: Allocations)
    requires UniqueProjects(a) && UniqueProjects(b)
    ensures DesiredFingerprint(spec, a) == DesiredFingerprint(spec', b)
      <==> spec == spec' && SameElements(a, b)
  {
    forall x ensures (x in Sorted(a) <==> x in a) && (x in Sorted(b) <==> x in b) {
      SortedElements(a, x);
      SortedElements(b, x);
    }
    if SameElements(a, b) {
      SortedIncreases(a);
      SortedIncreases(b);
      IncreasingUnique(Sorted(a), Sorted(b));
    }
  }

  // --- The digest ---

  type Byte = n: nat | n < 256

  /** `h ^ b` for a byte: only the low eight bits change. */
  function XorByte(h: nat, b: Byte): nat {
    h - h % 256 + ((h % 256) as bv8 ^ b as bv8) as nat
  }

  /** `wrapping_mul` by the FNV prime. */
  function TimesPrime(h: nat): nat {
    h * 0x100_0000_01b3 % 0x1_0000_0000_0000_0000
  }

  /** FNV-1a over 64 bits. */
  function Fnv(bytes: seq<Byte>): nat {
    if bytes == [] then 0xcbf2_9ce4_8422_2325
    else TimesPrime(XorByte(Fnv(bytes[..|bytes| - 1]), bytes[|bytes| - 1]))
  }

  function HexChar(d: nat): (c: char)
    requires d < 16
    ensures c != '/'
  {
    if d < 10 then DigitChar(d) else ('a' as int + d - 10) as char
  }

  function Hex(n: nat, width: nat): (s: string)
    ensures |s| == width && '/' !in s
  {
    if width == 0 then "" else Hex(n / 16, width - 1) + [HexChar(n % 16)]
  }

  const DIGEST_LENGTH: nat := 16

  function Digest(bytes: seq<Byte>): (s: string)
    ensures |s| == DIGEST_LENGTH && '/' !in s
  {
    Hex(Fnv(bytes), DIGEST_LENGTH)
  }

  method ComputeDigest(bytes: seq<Byte>) returns (s: string)
    ensures s == Digest(bytes)
  {
    var h := 0xcbf2_9ce4_8422_2325;
    for i := 0 to |bytes|
      invariant h == Fnv(bytes[..i])
    {
      assert bytes[..i + 1][..i] == bytes[..i];
      h := XorByte(h, bytes[i]);
      h := TimesPrime(h);
    }
    assert bytes[..|bytes|] == bytes;
    return Hex(h, DIGEST_LENGTH);
  }

  /** The published FNV-1a values of the empty text and of "a". */
  lemma KnownDigests()
    ensures Fnv([]) == 0xcbf2_9ce4_8422_2325
    ensures Fnv([0x61]) == 0xaf63_dc4c_8601_ec8c
  {
    assert [0x61 as Byte][..0] == [];
    assert (0x25 as bv8 ^ 0x61 as bv8) == 0x44;
    assert XorByte(0xcbf2_9ce4_8422_2325, 0x61) == 0xcbf2_9ce4_8422_2344;
  }
}
