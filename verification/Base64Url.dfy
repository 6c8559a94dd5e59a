/** The base64url codec (section 5 of RFC 4648): a decoder that shifts through a
    32-bit word and lets high bits fall off, against decoding by one unbounded
    integer, and the encoder it inverts. */
module Base64Url {
  import opened Types

  type Byte = n: nat | n < 256

  /** What a 32-bit word keeps of an integer. */
  function Low32(x: nat): (r: nat)
    ensures r < 0x1_0000_0000
  {
    x % 0x1_0000_0000
  }

  // --- Digits ---

  function Value(c: char): (v: Option<nat>)
    ensures v.Some? ==> v.value < 64
  {
    if 'A' <= c <= 'Z' then Some(c as int - 'A' as int)
    else if 'a' <= c <= 'z' then Some(c as int - 'a' as int + 26)
    else if '0' <= c <= '9' then Some(c as int - '0' as int + 52)
    else if c == '-' then Some(62)
    else if c == '_' then Some(63)
    else None
  }

  /** The character at an index of the encoder's table. */
  function Digit(x: nat): (c: char)
    requires x < 64
    ensures Value(c) == Some(x) && c != '='
  {
    if x < 26 then ('A' as int + x) as char
    else if x < 52 then ('a' as int + x - 26) as char
    else if x < 62 then ('0' as int + x - 52) as char
    else if x == 62 then '-'
    else '_'
  }

  /** The digits are those of the URL-safe alphabet in its order: the capital letters,
      the small ones, the figures, '-' and '_'. */
  lemma AlphabetOrder(x: nat)
    requires x < 63
    ensures Digit(0) == 'A' && Digit(25) == 'Z' && Digit(26) == 'a' && Digit(51) == 'z'
    ensures Digit(52) == '0' && Digit(61) == '9' && Digit(62) == '-' && Digit(63) == '_'
    ensures x !in {25, 51, 61, 62} ==> Digit(x + 1) as int == Digit(x) as int + 1
  {}

  predicate AllDigits(s: string) {
    forall i | 0 <= i < |s| :: Value(s[i]).Some?
  }

  /** The text in front of the first '='. */
  function Unpadded(s: string): string {
    if s == "" || s[0] == '=' then "" else [s[0]] + Unpadded(s[1..])
  }

  // --- Decoding by one integer ---

  function Number(s: string): nat
    requires AllDigits(s)
  {
    if s == "" then 0 else Number(s[..|s| - 1]) * 64 + Value(s[|s| - 1]).value
  }

  function BigEndian(x: nat, n: nat): (b: seq<Byte>)
    ensures |b| == n
  {
    if n == 0 then [] else BigEndian(x / 256, n - 1) + [x % 256]
  }

  /** All digits as one integer, the incomplete last byte dropped, the rest as bytes. */
  function DecodedDigits(s: string): seq<Byte>
    requires AllDigits(s)
  {
    BigEndian(Number(s) / Pow2(6 * |s| % 8), 6 * |s| / 8)
  }

  function Decoded(s: string): Option<seq<Byte>> {
    var t := Unpadded(s);
    if AllDigits(t) then Some(DecodedDigits(t)) else None
  }

  // --- The decoder ---

  /** Six more bits into the word, then a byte off its top if there are eight. */
  method Base64UrlDecode(s: string) returns (decoded: Option<seq<Byte>>)
    ensures decoded == Decoded(s)
  {
    var out: seq<Byte> := [];
    var acc: nat, bits: nat, i := 0, 0, 0;
    while i < |s| && s[i] != '='
      invariant 0 <= i <= |s| && ReadUpTo(s, i, acc, bits, out)
    {
      var v := Value(s[i]);
      if v.None? {
        BadDigit(s, i);
        return None;
      }
      ReadNext(s, i, acc, bits, out);
      acc := Low32(acc * 64) + v.value;
      bits := bits + 6;
      if bits >= 8 {
        bits := bits - 8;
        out := out + [acc / Pow2(bits) % 256];
      }
      i := i + 1;
    }
    Finished(s, i, acc, bits, out);
    return Some(out);
  }

  lemma BadDigit(s: string, i: nat)
    requires i < |s| && '=' !in s[..i] && s[i] != '=' && Value(s[i]).None?
    ensures Decoded(s) == None
  {
    UnpaddedFrom(s, i);
    assert Unpadded(s)[i] == s[i];
  }

  lemma Finished(s: string, i: nat, acc: nat, bits: nat, out: seq<Byte>)
    requires i <= |s| && (i == |s| || s[i] == '=') && ReadUpTo(s, i, acc, bits, out)
    ensures Decoded(s) == Some(out)
  {
    UnpaddedFrom(s, i);
    WholeBytes(i, |out|, bits);
  }

  /** The word holds the low bits of the digits read, `bits` of them unwritten. */
  ghost predicate Reached(s: string, acc: nat, bits: nat, out: seq<Byte>) {
    && AllDigits(s)
    && 6 * |s| == 8 * |out| + bits && Leftover(bits)
    && acc == Low32(Number(s))
    && out == BigEndian(Number(s) / Pow2(bits), |out|)
  }

  /** The loop's state in front of character `i`. */
  ghost predicate ReadUpTo(s: string, i: nat, acc: nat, bits: nat, out: seq<Byte>)
    requires i <= |s|
  {
    '=' !in s[..i] && Reached(s[..i], acc, bits, out)
  }

  lemma ReadNext(s: string, i: nat, acc: nat, bits: nat, out: seq<Byte>)
    requires i < |s| && ReadUpTo(s, i, acc, bits, out) && s[i] != '=' && Value(s[i]).Some?
    ensures
      var acc' := Low32(acc * 64) + Value(s[i]).value;
      && (bits + 6 < 8 ==> ReadUpTo(s, i + 1, acc', bits + 6, out))
      && (bits + 6 >= 8 ==> ReadUpTo(s, i + 1, acc', bits - 2, out + [acc' / Pow2(bits - 2) % 256]))
  {
    assert s[..i + 1] == s[..i] + [s[i]];
    ReadDigit(s[..i], s[i], acc, bits, out);
  }

  lemma ReadDigit(s: string, c: char, acc: nat, bits: nat, out: seq<Byte>)
    requires Reached(s, acc, bits, out) && Value(c).Some?
    ensures
      var acc' := Low32(acc * 64) + Value(c).value;
      && (bits + 6 < 8 ==> Reached(s + [c], acc', bits + 6, out))
      && (bits + 6 >= 8 ==> Reached(s + [c], acc', bits - 2, out + [acc' / Pow2(bits - 2) % 256]))
  {
    NumberOfOne(s, c);
    DecodeStep(Number(s), Value(c).value, bits, |out|);
  }

  predicate Leftover(bits: nat) {
    bits == 0 || bits == 2 || bits == 4 || bits == 6
  }

  lemma WholeBytes(digits: nat, bytes: nat, bits: nat)
    requires 6 * digits == 8 * bytes + bits && bits < 8
    ensures 6 * digits / 8 == bytes && 6 * digits % 8 == bits
  {
  }

  /** One step of the decoder is one step of the unbounded decoding: the bits
      that fell off the word are already written. */
  lemma DecodeStep(n: nat, v: nat, bits: nat, bytes: nat)
    requires v < 64 && Leftover(bits)
    ensures
      var m, acc := n * 64 + v, Low32(Low32(n) * 64) + v;
      && acc == Low32(m)
      && (bits == 0 ==> BigEndian(m / Pow2(6), bytes) == BigEndian(n / Pow2(0), bytes))
      && (bits > 0 ==> BigEndian(m / Pow2(bits - 2), bytes + 1)
                       == BigEndian(n / Pow2(bits), bytes) + [acc / Pow2(bits - 2) % 256])
  {
    WordStep(n, v);
    if bits == 0 {
      NoByteYet(n, v);
    } else {
      ByteStep(n, v, bits);
    }
  }

  lemma NoByteYet(n: nat, v: nat)
    requires v < 64
    ensures (n * 64 + v) / Pow2(6) == n / Pow2(0)
  {
    Shifts();
  }

  lemma NumberOfOne(s: string, c: char)
    requires AllDigits(s) && Value(c).Some?
    ensures AllDigits(s + [c]) && Number(s + [c]) == Number(s) * 64 + Value(c).value
  {
    assert (s + [c])[..|s|] == s;
  }

  lemma {:induction false} UnpaddedFrom(s: string, i: nat)
    requires i <= |s| && '=' !in s[..i]
    ensures |Unpadded(s)| >= i && Unpadded(s)[..i] == s[..i]
    ensures i == |s| || s[i] == '=' ==> Unpadded(s) == s[..i]
    ensures i < |s| && s[i] != '=' ==> |Unpadded(s)| > i && Unpadded(s)[i] == s[i]
    decreases |s|
  {
    if i > 0 {
      assert s[0] in s[..i];
      assert forall c | c in s[1..][..i - 1] :: c in s[..i];
      assert s[1..][..i - 1] == s[..i][1..];
      UnpaddedFrom(s[1..], i - 1);
    }
  }

  lemma Shifts()
    ensures Pow2(0) == 1 && Pow2(2) == 4 && Pow2(4) == 16 && Pow2(6) == 64
  {
    assert Pow2(1) == 2 && Pow2(3) == 8 && Pow2(5) == 32;
  }

  lemma WordStep(n: nat, v: nat)
    requires v < 64
    ensures Low32(Low32(n) * 64) + v == Low32(n * 64 + v)
  {
    var q, r := n / 0x1_0000_0000, Low32(n);
    var a, b := r / 0x400_0000, r % 0x400_0000;
    assert r * 64 == 0x1_0000_0000 * a + b * 64;
    LowOf(r * 64, a, b * 64);
    LowOf(n * 64 + v, q * 64 + a, b * 64 + v);
  }

  lemma LowOf(x: nat, q: nat, r: nat)
    requires r < 0x1_0000_0000 && x == 0x1_0000_0000 * q + r
    ensures Low32(x) == r
  {
  }

  /** Bits 2, 4 and 6 left over: the new byte straddles old and new bits. */
  lemma ByteStep(n: nat, v: nat, bits: nat)
    requires v < 64 && (bits == 2 || bits == 4 || bits == 6)
    ensures
      var m, low := n * 64 + v, Pow2(bits - 2);
      && m / low / 256 == n / Pow2(bits)
      && Low32(m) / low % 256 == m / low % 256
  {
    Shifts();
    var m := n * 64 + v;
    WordDrops(m, bits - 2);
    if bits == 2 {
      assert m / 256 == n / 4;
    } else if bits == 4 {
      assert m / 4 / 256 == n / 16;
    } else {
      assert m / 16 / 256 == n / 64;
    }
  }

  lemma WordDrops(m: nat, bits: nat)
    requires bits == 0 || bits == 2 || bits == 4
    ensures Low32(m) / Pow2(bits) % 256 == m / Pow2(bits) % 256
  {
    Shifts();
    var q, r := m / 0x1_0000_0000, Low32(m);
    if bits == 0 {
      SameByte(m, r, 0x100_0000 * q);
    } else if bits == 2 {
      assert m / 4 == 0x4000_0000 * q + r / 4;
      SameByte(m / 4, r / 4, 0x40_0000 * q);
    } else {
      assert m / 16 == 0x1000_0000 * q + r / 16;
      SameByte(m / 16, r / 16, 0x10_0000 * q);
    }
  }

  lemma SameByte(x: nat, y: nat, k: nat)
    requires x == 256 * k + y
    ensures x % 256 == y % 256
  {
  }

  // --- The encoder ---

  /** One to three bytes as a 24-bit group, missing bytes zero. */
  function Group(b: seq<Byte>): (n: nat)
    requires 1 <= |b| <= 3
    ensures n < 16777216
  {
    var x: nat := b[0];
    var y: nat := if |b| > 1 then b[1] else 0;
    var z: nat := if |b| > 2 then b[2] else 0;
    x * 65536 + y * 256 + z
  }

  /** The first `k` of a group's four digits. */
  function GroupDigits(n: nat, k: nat): (s: string)
    requires 2 <= k <= 4
    ensures |s| == k && AllDigits(s) && '=' !in s
  {
    [Digit(n / 262144 % 64), Digit(n / 4096 % 64)]
    + (if k > 2 then [Digit(n / 64 % 64)] else [])
    + if k > 3 then [Digit(n % 64)] else []
  }

  function Chunk(b: seq<Byte>): (s: string)
    requires 1 <= |b| <= 3
    ensures |s| == |b| + 1 && AllDigits(s) && '=' !in s
  {
    GroupDigits(Group(b), |b| + 1)
  }

  function Encoded(b: seq<Byte>): (s: string)
    ensures AllDigits(s) && '=' !in s
  {
    if b == [] then ""
    else if |b| <= 3 then Chunk(b)
    else Chunk(b[..3]) + Encoded(b[3..])
  }

  method EncodeChunk(chunk: seq<Byte>) returns (digits: string)
    requires 1 <= |chunk| <= 3
    ensures digits == Chunk(chunk)
  {
    var n := Group(chunk);
    digits := [Digit(n / 262144 % 64), Digit(n / 4096 % 64)];
    if |chunk| > 1 {
      digits := digits + [Digit(n / 64 % 64)];
    }
    if |chunk| > 2 {
      digits := digits + [Digit(n % 64)];
    }
  }

  method Base64UrlEncode(b: seq<Byte>) returns (s: string)
    ensures s == Encoded(b)
  {
    s := "";
    var i := 0;
    assert b[0..] == b;
    while i < |b|
      invariant 0 <= i <= |b| && Encoded(b) == s + Encoded(b[i..])
    {
      var next := if i + 3 < |b| then i + 3 else |b|;
      var digits := EncodeChunk(b[i..next]);
      FirstChunk(s, b, i, next);
      s := s + digits;
      i := next;
    }
  }

  lemma FirstChunk(s: string, b: seq<Byte>, i: nat, next: nat)
    requires i < |b| && next == if i + 3 < |b| then i + 3 else |b|
    ensures s + Encoded(b[i..]) == s + Chunk(b[i..next]) + Encoded(b[next..])
  {
    if i + 3 < |b| {
      assert b[i..][..3] == b[i..next] && b[i..][3..] == b[next..];
    } else {
      assert b[i..] == b[i..next] && b[next..] == [];
    }
    Reassociate(s, Chunk(b[i..next]), Encoded(b[next..]), [], [], []);
  }

  function Integer(b: seq<Byte>): nat {
    if b == [] then 0 else Integer(b[..|b| - 1]) * 256 + b[|b| - 1]
  }

  lemma {:induction false} IntegerBytes(b: seq<Byte>)
    ensures BigEndian(Integer(b), |b|) == b
    decreases |b|
  {
    if b != [] {
      var rest, last := b[..|b| - 1], b[|b| - 1];
      IntegerBytes(rest);
      assert Integer(b) / 256 == Integer(rest) && Integer(b) % 256 == last;
      assert b == rest + [last];
    }
  }

  /** Zero bits the encoder appends to `n` bytes to fill the last digit. */
  function FillBits(n: nat): (bits: nat)
    ensures bits == 0 || bits == 2 || bits == 4
  {
    if n > 3 then FillBits(n - 3) else if n == 1 then 4 else if n == 2 then 2 else 0
  }

  /** `x` shifted left by the fill. */
  function WithFill(x: nat, n: nat): nat {
    if n > 3 then WithFill(x, n - 3) else if n == 1 then x * 16 else if n == 2 then x * 4 else x
  }

  lemma {:induction false} FillDropped(x: nat, n: nat)
    ensures WithFill(x, n) / Pow2(FillBits(n)) == x
  {
    Shifts();
    if n > 3 {
      FillDropped(x, n - 3);
    }
  }

  lemma GroupSplits(n: nat)
    requires n < 16777216
    ensures (n / 262144 % 64) * 64 + n / 4096 % 64 == n / 4096
    ensures n / 4096 * 64 + n / 64 % 64 == n / 64
    ensures n / 64 * 64 + n % 64 == n
  {
  }

  /** A group's digits, read after other digits, put back the bits they hold. */
  lemma GroupNumber(s: string, n: nat, k: nat)
    requires AllDigits(s) && 2 <= k <= 4 && n < 16777216
    ensures AllDigits(s + GroupDigits(n, k))
    ensures Number(s + GroupDigits(n, k)) == Behind(Number(s), n, k)
  {
    GroupSplits(n);
    DigitsNumber(s, n / 262144 % 64, n / 4096 % 64, n / 64 % 64, n % 64, k);
  }

  lemma DigitsNumber(s: string, c: nat, d: nat, e: nat, f: nat, k: nat)
    requires AllDigits(s) && c < 64 && d < 64 && e < 64 && f < 64 && 2 <= k <= 4
    ensures
      var t := s + ([Digit(c), Digit(d)] + (if k > 2 then [Digit(e)] else []) + if k > 3 then [Digit(f)] else []);
      && AllDigits(t)
      && Number(t) == if k == 2 then Number(s) * 4096 + (c * 64 + d)
                      else if k == 3 then Number(s) * 262144 + (c * 64 + d) * 64 + e
                      else Number(s) * 16777216 + ((c * 64 + d) * 64 + e) * 64 + f
  {
    var t := s + ([Digit(c), Digit(d)] + (if k > 2 then [Digit(e)] else []) + if k > 3 then [Digit(f)] else []);
    NumberOfOne(s, Digit(c));
    NumberOfOne(s + [Digit(c)], Digit(d));
    if k == 2 {
      assert t == s + [Digit(c)] + [Digit(d)];
    } else {
      NumberOfOne(s + [Digit(c)] + [Digit(d)], Digit(e));
      if k == 3 {
        assert t == s + [Digit(c)] + [Digit(d)] + [Digit(e)];
      } else {
        NumberOfOne(s + [Digit(c)] + [Digit(d)] + [Digit(e)], Digit(f));
        assert t == s + [Digit(c)] + [Digit(d)] + [Digit(e)] + [Digit(f)];
      }
    }
  }

  lemma IntegerOfOne(a: seq<Byte>, x: Byte)
    ensures Integer(a + [x]) == Integer(a) * 256 + x
  {
    assert (a + [x])[..|a|] == a;
  }

  /** A chunk's bytes, read after other bytes, are its group without the zeros. */
  lemma IntegerOfChunk(a: seq<Byte>, b: seq<Byte>)
    requires 1 <= |b| <= 3
    ensures
      var n := Group(b);
      if |b| == 1 then Integer(a + b) == Integer(a) * 256 + n / 65536 && n % 65536 == 0
      else if |b| == 2 then Integer(a + b) == Integer(a) * 65536 + n / 256 && n % 256 == 0
      else Integer(a + b) == Integer(a) * 16777216 + n
  {
    IntegerOfOne(a, b[0]);
    if |b| == 1 {
      assert a + b == a + [b[0]];
    } else {
      IntegerOfOne(a + [b[0]], b[1]);
      if |b| == 2 {
        assert a + b == a + [b[0]] + [b[1]];
      } else {
        IntegerOfOne(a + [b[0]] + [b[1]], b[2]);
        assert a + b == a + [b[0]] + [b[1]] + [b[2]];
      }
    }
  }

  /** What `k` digits of a group put behind the number `x`. */
  function Behind(x: nat, n: nat, k: nat): nat {
    if k == 2 then x * 4096 + n / 4096 else if k == 3 then x * 262144 + n / 64 else x * 16777216 + n
  }

  lemma ChunkInteger(a: seq<Byte>, b: seq<Byte>)
    requires 1 <= |b| <= 3
    ensures Behind(Integer(a), Group(b), |b| + 1) == WithFill(Integer(a + b), |b|)
  {
    IntegerOfChunk(a, b);
    GroupShift(Integer(a), Group(b));
  }

  lemma GroupShift(x: nat, n: nat)
    ensures n % 65536 == 0 ==> Behind(x, n, 2) == WithFill(x * 256 + n / 65536, 1)
    ensures n % 256 == 0 ==> Behind(x, n, 3) == WithFill(x * 65536 + n / 256, 2)
  {
  }

  /** One chunk adds to the digits' number what it adds to the bytes' integer,
      up to the fill. */
  lemma ChunkAgrees(s: string, a: seq<Byte>, b: seq<Byte>)
    requires AllDigits(s) && 1 <= |b| <= 3 && Number(s) == Integer(a)
    ensures AllDigits(s + Chunk(b)) && Number(s + Chunk(b)) == WithFill(Integer(a + b), |b|)
  {
    GroupNumber(s, Group(b), |b| + 1);
    ChunkInteger(a, b);
  }

  lemma {:induction false} EncodedNumber(s: string, a: seq<Byte>, b: seq<Byte>)
    requires AllDigits(s) && Number(s) == Integer(a)
    ensures AllDigits(s + Encoded(b)) && Number(s + Encoded(b)) == WithFill(Integer(a + b), |b|)
    decreases |b|
  {
    if b == [] {
      assert s + "" == s && a + b == a;
    } else if |b| <= 3 {
      ChunkAgrees(s, a, b);
    } else {
      ChunkAgrees(s, a, b[..3]);
      EncodedNumber(s + Chunk(b[..3]), a + b[..3], b[3..]);
      Reassociate(s, Chunk(b[..3]), Encoded(b[3..]), a, b[..3], b[3..]);
      assert b[..3] + b[3..] == b;
    }
  }

  lemma Reassociate(s: string, t: string, u: string, a: seq<Byte>, b: seq<Byte>, c: seq<Byte>)
    ensures s + t + u == s + (t + u) && a + b + c == a + (b + c)
  {
  }

  lemma {:induction false} EncodedLength(b: seq<Byte>)
    ensures 6 * |Encoded(b)| == 8 * |b| + FillBits(|b|)
    decreases |b|
  {
    if |b| > 3 {
      EncodedLength(b[3..]);
    }
  }

  lemma EncodedDecodes(b: seq<Byte>)
    ensures DecodedDigits(Encoded(b)) == b
  {
    EncodedNumber("", [], b);
    assert "" + Encoded(b) == Encoded(b) && [] + b == b;
    EncodedLength(b);
    WholeBytes(|Encoded(b)|, |b|, FillBits(|b|));
    IntegerBytes(b);
    FillDropped(Integer(b), |b|);
  }

  lemma {:induction false} UnpaddedStops(s: string, tail: string)
    requires '=' !in s && (tail == "" || tail[0] == '=')
    ensures Unpadded(s + tail) == s
    decreases |s|
  {
    if s == "" {
      assert s + tail == tail;
    } else {
      assert (s + tail)[1..] == s[1..] + tail;
      UnpaddedStops(s[1..], tail);
    }
  }

  /** Decoding inverts encoding for every byte string, bare or followed by
      padding and anything after it. */
  lemma {:induction false} RoundTrip(b: seq<Byte>, tail: string)
    requires tail == "" || tail[0] == '='
    ensures Decoded(Encoded(b) + tail) == Some(b)
  {
    UnpaddedStops(Encoded(b), tail);
    EncodedDecodes(b);
  }
}
