/** Outbox keys as text: `{id}/{generation}` for clusters and
    `pool:{name}/{generation}:{digest}` for pools, over arbitrary characters. */
module Keys {

  predicate IsDigit(c: char) { '0' <= c <= '9' }

  predicate AllDigits(s: string) { forall i | 0 <= i < |s| :: IsDigit(s[i]) }

  function DigitChar(d: nat): (c: char)
    requires d < 10
    ensures IsDigit(c) && (c as int) - ('0' as int) == d
  {
    (('0' as int) + d) as char
  }

  /** Decimal rendering of an unsigned integer, as `Display` writes it. */
  function Decimal(n: nat): (s: string)
    ensures |s| > 0 && AllDigits(s)
  {
    if n < 10 then [DigitChar(n)] else Decimal(n / 10) + [DigitChar(n % 10)]
  }

  /** Reads a digit string back. */
  function ParseDecimal(s: string): nat
    requires AllDigits(s)
  {
    if s == [] then 0
    else ParseDecimal(s[..|s| - 1]) * 10 + ((s[|s| - 1] as int) - ('0' as int))
  }

  lemma {:induction false} DecimalRoundTrip(n: nat)
    ensures ParseDecimal(Decimal(n)) == n
  {
    if n < 10 {
      assert Decimal(n)[..0] == [];
    } else {
      DecimalRoundTrip(n / 10);
      assert Decimal(n)[..|Decimal(n)| - 1] == Decimal(n / 10);
    }
  }

  function ClusterKey(id: string, generation: nat): string {
    id + "/" + Decimal(generation)
  }

  function PoolKey(name: string, generation: nat, digest: string): string {
    "pool:" + name + "/" + Decimal(generation) + ":" + digest
  }

  /** Index of the last '/' in `s`, or -1. */
  function LastSlash(s: string): (k: int)
    ensures -1 <= k < |s|
    ensures k >= 0 ==> s[k] == '/'
    ensures forall i | k < i < |s| :: s[i] != '/'
  {
    if s == [] then -1
    else if s[|s| - 1] == '/' then |s| - 1
    else LastSlash(s[..|s| - 1])
  }

  lemma ClusterKeyShape(id: string, generation: nat)
    ensures LastSlash(ClusterKey(id, generation)) == |id|
    ensures ClusterKey(id, generation)[..|id|] == id
    ensures ClusterKey(id, generation)[|id| + 1..] == Decimal(generation)
  {
    var key := ClusterKey(id, generation);
    assert key[|id| + 1..] == Decimal(generation);
    assert forall i | |id| < i < |key| :: key[i] == Decimal(generation)[i - |id| - 1];
    assert key[|id|] == '/';
  }

  /** A cluster key names one (id, generation), whatever characters the id holds. */
  lemma ClusterKeyInjective(id: string, g: nat, id': string, g': nat)
    requires ClusterKey(id, g) == ClusterKey(id', g')
    ensures id == id' && g == g'
  {
    ClusterKeyShape(id, g);
    ClusterKeyShape(id', g');
    DecimalRoundTrip(g);
    DecimalRoundTrip(g');
  }

  lemma PoolKeyShape(name: string, g: nat, digest: string)
    requires '/' !in digest
    ensures
      var key, at := PoolKey(name, g, digest), 5 + |name|;
      && |key| == at + 1 + |Decimal(g)| + 1 + |digest|
      && LastSlash(key) == at
      && key[5..at] == name
      && key[at + 1..] == Decimal(g) + ":" + digest
  {
    var key := PoolKey(name, g, digest);
    var head, tail := "pool:" + name, Decimal(g) + ":" + digest;
    assert key == head + "/" + tail;
    assert key[|head| + 1..] == tail && key[5..|head|] == name;
    assert forall i | |head| < i < |key| :: key[i] == tail[i - |head| - 1];
    forall i | 0 <= i < |tail| ensures tail[i] != '/' {
      if i < |Decimal(g)| {
        assert tail[i] == Decimal(g)[i];
      } else if i > |Decimal(g)| {
        assert tail[i] == digest[i - |Decimal(g)| - 1];
      }
    }
    assert key[|head|] == '/';
  }

  /** Cluster keys and pool keys never meet: after the last '/' a cluster key
      holds digits only, a pool key holds a ':'. The digest is hex, so it has no '/'. */
  lemma ClusterPoolKeysDisjoint(id: string, g: nat, name: string, g': nat, digest: string)
    requires '/' !in digest
    ensures ClusterKey(id, g) != PoolKey(name, g', digest)
  {
    ClusterKeyShape(id, g);
    PoolKeyShape(name, g', digest);
    var tail := Decimal(g') + ":" + digest;
    assert tail[|Decimal(g')|] == ':';
  }

  lemma TailSplits(a: string, x: string, b: string, y: string)
    requires a + ":" + x == b + ":" + y && |x| == |y|
    ensures a == b && x == y
  {
    var tail := a + ":" + x;
    assert |a| == |b| && a == tail[..|a|] && b == tail[..|a|];
    assert x == tail[|a| + 1..] && y == tail[|a| + 1..];
  }

  /** A pool key names one (name, generation, digest) when digests have one length. */
  lemma PoolKeyInjective(name: string, g: nat, digest: string, name': string, g': nat, digest': string)
    requires '/' !in digest && '/' !in digest' && |digest| == |digest'|
    requires PoolKey(name, g, digest) == PoolKey(name', g', digest')
    ensures name == name' && g == g' && digest == digest'
  {
    PoolKeyShape(name, g, digest);
    PoolKeyShape(name', g', digest');
    TailSplits(Decimal(g), digest, Decimal(g'), digest');
    DecimalRoundTrip(g);
    DecimalRoundTrip(g');
  }
}
