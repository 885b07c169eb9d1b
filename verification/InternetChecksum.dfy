/**
 The Internet checksum (RFC 1071) as `icmp.rs` computes it: sum big-endian words in a
 u32, fold the carries, complement.
 */
module InternetChecksum {
  import opened Bytes

  const U32_MODULUS: nat := 0x1_0000_0000

  /** Longest buffer whose word sum is certain to fit a u32 accumulator. */
  const MAX_SAFE_LEN: nat := 131074

  // ---------------------------------------------------------------- reference meaning

  /** The mathematical sum of the buffer's 16-bit words; an odd last byte is padded with zero. */
  function WordSum(s: seq<byte>): nat {
    if |s| == 0 then 0
    else if |s| == 1 then U16(s[0], 0)
    else U16(s[0], s[1]) + WordSum(s[2..])
  }

  /** The ones'-complement representative of n: 0 for 0, otherwise the residue in 1..65535. */
  function Residue(n: nat): (r: nat)
    ensures r < 0x1_0000
    ensures r % 65535 == n % 65535
    ensures r == 0 <==> n == 0
  {
    if n == 0 then 0 else (n - 1) % 65535 + 1
  }

  /** The checksum RFC 1071 assigns to a buffer. */
  function ChecksumOf(s: seq<byte>): (c: nat)
    ensures c < 0x1_0000
  {
    0xffff - Residue(WordSum(s))
  }

  /** A receiver accepts a covered range when its checksum, stored field included, is zero. */
  predicate Verifies(s: seq<byte>) {
    ChecksumOf(s) == 0
  }

  // ---------------------------------------------------------------- lemmas

  lemma FoldKeepsResidue(n: nat)
    requires n >= 0x1_0000
    ensures 0 < n % 0x1_0000 + n / 0x1_0000 < n
    ensures Residue(n % 0x1_0000 + n / 0x1_0000) == Residue(n)
  {
    var q := n / 0x1_0000;
    var m := n % 0x1_0000 + q;
    assert n - 1 == (m - 1) + 65535 * q;
    AddMultiple(m - 1, q);
  }

  lemma {:induction false} AddMultiple(a: nat, k: nat)
    ensures (a + 65535 * k) % 65535 == a % 65535
  {
    if k > 0 {
      AddMultiple(a, k - 1);
      assert a + 65535 * k == (a + 65535 * (k - 1)) + 65535;
    }
  }

  lemma {:induction false} WordSumConcat(a: seq<byte>, b: seq<byte>)
    requires |a| % 2 == 0
    ensures WordSum(a + b) == WordSum(a) + WordSum(b)
  {
    if |a| == 0 {
      assert a + b == b;
    } else {
      WordSumConcat(a[2..], b);
      assert (a + b)[2..] == a[2..] + b;
    }
  }

  lemma WordSumField(s: seq<byte>, at: nat, v: nat)
    requires at % 2 == 0 && at + 2 <= |s| && v < 0x1_0000
    ensures WordSum(Splice(s, at, Be16(v))) == WordSum(s[..at]) + v + WordSum(s[at + 2..])
  {
    var f, head, tail := Be16(v), s[..at], s[at + 2..];
    assert WordSum(f) == v by { assert f[2..] == []; }
    assert Splice(s, at, f) == head + (f + tail);
    WordSumConcat(head, f + tail);
    WordSumConcat(f, tail);
  }

  lemma VerifiesIff(s: seq<byte>)
    ensures Verifies(s) <==> WordSum(s) > 0 && WordSum(s) % 65535 == 0
  {
  }

  /**
   Storing a value v in an even-aligned field that held zero makes the range verify exactly
   when v agrees modulo 65535 with the checksum of the range with the field zero (apart from
   the all-zero range, which no receiver accepts).
   */
  lemma StoredFieldVerifiesIff(s: seq<byte>, at: nat, v: nat)
    requires at % 2 == 0 && at + 2 <= |s| && v < 0x1_0000
    requires s[at] == 0 && s[at + 1] == 0
    ensures Verifies(Splice(s, at, Be16(v)))
            <==> v % 65535 == ChecksumOf(s) % 65535 && (WordSum(s) > 0 || v > 0)
  {
    StoredFieldSum(s, at, v);
    AddedValueVerifies(s, Splice(s, at, Be16(v)), v);
  }

  lemma AddedValueVerifies(s: seq<byte>, t: seq<byte>, v: nat)
    requires WordSum(t) == WordSum(s) + v && v < 0x1_0000
    ensures Verifies(t) <==> v % 65535 == ChecksumOf(s) % 65535 && (WordSum(s) > 0 || v > 0)
  {
    VerifiesIff(t);
    Complement(WordSum(s), v);
  }

  /** Storing the computed checksum makes the range verify, whatever the range holds. */
  lemma StoredFieldVerifies(s: seq<byte>, at: nat)
    requires at % 2 == 0 && at + 2 <= |s|
    requires s[at] == 0 && s[at + 1] == 0
    ensures Verifies(Splice(s, at, Be16(ChecksumOf(s))))
  {
    StoredFieldVerifiesIff(s, at, ChecksumOf(s));
  }

  lemma StoredFieldSum(s: seq<byte>, at: nat, v: nat)
    requires at % 2 == 0 && at + 2 <= |s| && v < 0x1_0000
    requires s[at] == 0 && s[at + 1] == 0
    ensures WordSum(Splice(s, at, Be16(v))) == WordSum(s) + v
  {
    WordSumField(s, at, v);
    FieldSplits(s, at);
    WordSumConcat(s[..at], s[at..]);
    assert s[at..][2..] == s[at + 2..];
  }

  lemma FieldSplits(s: seq<byte>, at: nat)
    requires at <= |s|
    ensures s == s[..at] + s[at..]
  {
  }

  lemma Complement(total: nat, v: nat)
    requires v < 0x1_0000
    ensures (total + v) % 65535 == 0 <==> v % 65535 == (0xffff - Residue(total)) % 65535
  {
    var r := Residue(total);
    assert total % 65535 == r % 65535;
    assert total == 65535 * (total / 65535) + total % 65535;
    assert (total + v) % 65535 == (r + v) % 65535 by {
      AddMultiple(total % 65535 + v, total / 65535);
      AddMultiple(r % 65535 + v, r / 65535);
      assert r == 65535 * (r / 65535) + r % 65535;
    }
  }

  /** A single corrupted word is noticed unless 0x0000 and 0xffff were exchanged. */
  lemma CorruptionDetected(s: seq<byte>, at: nat, v: nat)
    requires at % 2 == 0 && at + 2 <= |s| && v < 0x1_0000
    requires Verifies(s)
    ensures var w := U16(s[at], s[at + 1]);
            Verifies(Splice(s, at, Be16(v))) <==>
              w == v || (w == 0 && v == 65535) ||
              (w == 65535 && v == 0 && WordSum(Splice(s, at, Be16(v))) > 0)
  {
    var w := U16(s[at], s[at + 1]);
    var rest := WordSum(s[..at]) + WordSum(s[at + 2..]);
    WordSumField(s, at, w);
    assert Splice(s, at, Be16(w)) == s;
    WordSumField(s, at, v);
    VerifiesIff(s);
    VerifiesIff(Splice(s, at, Be16(v)));
    SameResidue(rest, w, v);
  }

  lemma SameResidue(rest: nat, w: nat, v: nat)
    requires w < 0x1_0000 && v < 0x1_0000
    requires (rest + w) % 65535 == 0
    ensures (rest + v) % 65535 == 0 <==> w == v || (w == 0 && v == 65535) || (w == 65535 && v == 0)
  {
    var q := (rest + w) / 65535;
    assert rest + w == 65535 * q;
    if (rest + v) % 65535 == 0 {
      var p := (rest + v) / 65535;
      assert v - w == 65535 * (p - q);
    }
  }

  lemma {:induction false} WordSumBound(s: seq<byte>)
    ensures WordSum(s) <= 65535 * ((|s| + 1) / 2)
  {
    if |s| > 1 {
      WordSumBound(s[2..]);
    }
  }

  /** The u32 accumulator holds the true sum for every buffer up to MAX_SAFE_LEN bytes. */
  lemma AccumulatorFits(s: seq<byte>)
    requires |s| <= MAX_SAFE_LEN
    ensures WordSum(s) < U32_MODULUS
  {
    WordSumBound(s);
  }

  lemma {:induction false} WordSumOnes(n: nat)
    ensures WordSum(seq(2 * n, _ => 255 as byte)) == 65535 * n
  {
    if n > 0 {
      WordSumOnes(n - 1);
      assert seq(2 * n, _ => 255 as byte)[2..] == seq(2 * (n - 1), _ => 255 as byte);
    }
  }

  lemma {:induction false} WordSumOddEnd(s: seq<byte>, b: byte)
    requires |s| % 2 == 0
    ensures WordSum(s + [b]) == WordSum(s) + U16(b, 0)
  {
    if |s| > 0 {
      WordSumOddEnd(s[2..], b);
      assert (s + [b])[2..] == s[2..] + [b];
    } else {
      assert s + [b] == [b];
    }
  }

  /** MAX_SAFE_LEN cannot be raised: one byte more and an all-ones buffer overflows. */
  lemma AccumulatorBoundIsTight()
    ensures exists s: seq<byte> :: |s| == MAX_SAFE_LEN + 1 && WordSum(s) >= U32_MODULUS
  {
    var n := 65537;
    var ones := seq(2 * n, _ => 255 as byte);
    WordSumOnes(n);
    WordSumOddEnd(ones, 255);
    var s := ones + [255];
    assert |s| == MAX_SAFE_LEN + 1 && WordSum(s) >= U32_MODULUS;
  }

  /** The worked example of section 3 of RFC 1071. */
  lemma Rfc1071Example()
    ensures ChecksumOf([0x00, 0x01, 0xf2, 0x03, 0xf4, 0xf5, 0xf6, 0xf7]) == 0xffff - 0xddf2
    ensures WordSum([0x12, 0x34]) == 0x1234 && WordSum([0x12]) == 0x1200
  {
    var s: seq<byte> := [0x00, 0x01, 0xf2, 0x03, 0xf4, 0xf5, 0xf6, 0xf7];
    assert s[2..] == [0xf2, 0x03, 0xf4, 0xf5, 0xf6, 0xf7];
    assert s[2..][2..] == [0xf4, 0xf5, 0xf6, 0xf7];
    assert s[2..][2..][2..] == [0xf6, 0xf7];
    assert s[2..][2..][2..][2..] == [];
    assert WordSum(s) == 0x0001 + 0xf203 + 0xf4f5 + 0xf6f7;
    assert [0x12 as byte, 0x34][2..] == [];
  }

  // ---------------------------------------------------------------- the code

  /** `while sum >> 16 != 0 { sum = (sum & 0xffff) + (sum >> 16) }` and the final complement. */
  method FoldAndComplement(start: nat) returns (c: nat)
    ensures c == 0xffff - Residue(start)
  {
    var sum := start;
    while sum / 0x1_0000 != 0
      invariant Residue(sum) == Residue(start)
      decreases sum
    {
      FoldKeepsResidue(sum);
      sum := sum % 0x1_0000 + sum / 0x1_0000;
    }
    c := 0xffff - sum;
  }

  /** `u32` addition as a release build performs it. */
  function AddU32(a: nat, b: nat): (r: nat)
    ensures r < U32_MODULUS
  {
    (a + b) % U32_MODULUS
  }

  lemma AddU32Exact(a: nat, b: nat)
    ensures AddU32(a % U32_MODULUS, b) == (a + b) % U32_MODULUS
  {
  }

  /** The accumulation loop of `icmp.rs: checksum`. */
  method SumWords(buf: seq<byte>) returns (sum: nat)
    ensures sum == WordSum(buf) % U32_MODULUS
  {
    var i := 0;
    sum := 0;
    ghost var exact: nat := 0;
    while i + 1 < |buf|
      invariant 0 <= i <= |buf|
      invariant exact + WordSum(buf[i..]) == WordSum(buf)
      invariant sum == exact % U32_MODULUS
    {
      assert buf[i..][2..] == buf[i + 2..];
      AddU32Exact(exact, U16(buf[i], buf[i + 1]));
      exact := exact + U16(buf[i], buf[i + 1]);
      sum := AddU32(sum, U16(buf[i], buf[i + 1]));
      i := i + 2;
    }
    if i < |buf| {
      assert buf[i..] == [buf[i]];
      AddU32Exact(exact, U16(buf[i], 0));
      sum := AddU32(sum, U16(buf[i], 0));
    }
  }

  /** `icmp.rs: checksum`. */
  method Checksum(buf: seq<byte>) returns (c: nat)
    ensures c == 0xffff - Residue(WordSum(buf) % U32_MODULUS)
    ensures |buf| <= MAX_SAFE_LEN ==> c == ChecksumOf(buf)
  {
    var sum := SumWords(buf);
    c := FoldAndComplement(sum);
    if |buf| <= MAX_SAFE_LEN {
      AccumulatorFits(buf);
    }
  }
}
