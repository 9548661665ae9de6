/** Content fingerprints and their strict lowercase-hex wire form. */
module Fingerprints {
  import opened Items

  const DIGEST_LEN: nat := 32

  type Digest = d: seq<bv8> | |d| == DIGEST_LEN witness seq(DIGEST_LEN, _ => 0 as bv8)

  datatype Fingerprint = Fingerprint(digest: Digest)

  datatype ParseError = WrongLength(found: nat) | NotLowercaseHex

  datatype IntegrityError = IntegrityError(expected: Fingerprint, actual: Fingerprint)

  /** A hash from contents to fingerprints; nothing is assumed of it. */
  type Hash = seq<bv8> -> Fingerprint

  function Verify(hash: Hash, bytes: seq<bv8>, expected: Fingerprint): Result<(), IntegrityError> {
    var actual := hash(bytes);
    if actual == expected then Ok(()) else Err(IntegrityError(expected, actual))
  }

  predicate IsLowerHex(c: bv8) { 0x30 <= c <= 0x39 || 0x61 <= c <= 0x66 }

  function HexNibble(c: bv8): (r: Result<bv8, ParseError>)
    ensures r.Ok? <==> IsLowerHex(c)
    ensures r.Ok? ==> r.value < 16 && HexDigit(r.value) == c
    ensures r.Err? ==> r.error == NotLowercaseHex
  {
    if 0x30 <= c <= 0x39 then Ok(c - 0x30)
    else if 0x61 <= c <= 0x66 then Ok(c - 0x61 + 10)
    else Err(NotLowercaseHex)
  }

  /** The character two-digit lowercase hex formatting prints for one half byte. */
  function HexDigit(n: bv8): (c: bv8)
    requires n < 16
    ensures IsLowerHex(c)
  {
    if n < 10 then 0x30 + n else 0x61 + (n - 10)
  }

  function High(b: bv8): (n: bv8)
    ensures n < 16
  {
    b >> 4
  }

  function Low(b: bv8): (n: bv8)
    ensures n < 16
  {
    b & 0x0F
  }

  /** A digest's printed form: high half then low half of every byte. */
  function Hex(f: Fingerprint): (s: seq<bv8>)
    ensures |s| == 2 * DIGEST_LEN
  {
    seq(2 * DIGEST_LEN, i requires 0 <= i < 2 * DIGEST_LEN =>
      if i % 2 == 0 then HexDigit(High(f.digest[i / 2])) else HexDigit(Low(f.digest[i / 2])))
  }

  method ToHex(f: Fingerprint) returns (out: seq<bv8>)
    ensures out == Hex(f)
  {
    out := [];
    for i := 0 to DIGEST_LEN
      invariant |out| == 2 * i
      invariant forall k :: 0 <= k < 2 * i ==> out[k] == Hex(f)[k]
    {
      var byte := f.digest[i];
      out := out + [HexDigit(High(byte)), HexDigit(Low(byte))];
    }
  }

  /** Accepts exactly the strings that are some digest's printed form, and gives that digest back. */
  method FromHex(s: seq<bv8>) returns (r: Result<Fingerprint, ParseError>)
    ensures forall f :: r == Ok(f) <==> s == Hex(f)
    ensures r.Ok? <==> |s| == 2 * DIGEST_LEN && forall i :: 0 <= i < |s| ==> IsLowerHex(s[i])
    ensures r.Err? ==> r.error == if |s| != 2 * DIGEST_LEN then WrongLength(|s|) else NotLowercaseHex
  {
    if |s| != 2 * DIGEST_LEN {
      return Err(WrongLength(|s|));
    }
    var out: seq<bv8> := [];
    for i := 0 to DIGEST_LEN
      invariant |out| == i
      invariant forall k :: 0 <= k < 2 * i ==> IsLowerHex(s[k])
      invariant forall k :: 0 <= k < i ==> s[2 * k] == HexDigit(High(out[k])) && s[2 * k + 1] == HexDigit(Low(out[k]))
    {
      var hi := HexNibble(s[2 * i]);
      if hi.Err? {
        HexIsLowerHex();
        return Err(hi.error);
      }
      var lo := HexNibble(s[2 * i + 1]);
      if lo.Err? {
        HexIsLowerHex();
        return Err(lo.error);
      }
      JoinSplits(hi.value, lo.value);
      out := out + [(hi.value << 4) | lo.value];
    }
    var f := Fingerprint(out);
    forall k | 0 <= k < |s| ensures s[k] == Hex(f)[k] {
      assert k == 2 * (k / 2) || k == 2 * (k / 2) + 1;
    }
    assert s == Hex(f);
    forall g | Hex(g) == s ensures g == f {
      HexInjective(f, g);
    }
    r := Ok(f);
  }

  lemma JoinSplits(hi: bv8, lo: bv8)
    requires hi < 16 && lo < 16
    ensures High((hi << 4) | lo) == hi && Low((hi << 4) | lo) == lo
  {
  }

  lemma HexDigitInjective(a: bv8, b: bv8)
    requires HexDigit(High(a)) == HexDigit(High(b)) && HexDigit(Low(a)) == HexDigit(Low(b))
    ensures a == b
  {
  }

  lemma HexIsLowerHex()
    ensures forall f, i :: 0 <= i < 2 * DIGEST_LEN ==> IsLowerHex(Hex(f)[i])
  {
  }

  /** Two digests never print alike. */
  lemma HexInjective(f: Fingerprint, g: Fingerprint)
    requires Hex(f) == Hex(g)
    ensures f == g
  {
    forall k | 0 <= k < DIGEST_LEN ensures f.digest[k] == g.digest[k] {
      assert Hex(f)[2 * k] == Hex(g)[2 * k] && Hex(f)[2 * k + 1] == Hex(g)[2 * k + 1];
      HexDigitInjective(f.digest[k], g.digest[k]);
    }
    assert f.digest == g.digest;
  }
}
