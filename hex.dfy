/**
 * The hexadecimal text codec the API layer relies on: Python 2's
 * `str.decode('hex')` (which rejects an odd length or any non-hex
 * character and accepts both letter cases) and pyethapp's
 * `address_encoder` (`0x` followed by lower-case hex).
 */
module HexCodec {
  import opened Common

  predicate IsHexDigit(c: char) {
    ('0' <= c <= '9') || ('a' <= c <= 'f') || ('A' <= c <= 'F')
  }

  predicate IsLowerHexDigit(c: char) {
    ('0' <= c <= '9') || ('a' <= c <= 'f')
  }

  /** Every character is a hex digit and the digits pair up into whole bytes. */
  predicate IsHexString(t: string) {
    |t| % 2 == 0 && forall i :: 0 <= i < |t| ==> IsHexDigit(t[i])
  }

  function DigitValue(c: char): (v: nat)
    requires IsHexDigit(c)
    ensures v < 16
  {
    if '0' <= c <= '9' then c as nat - '0' as nat
    else if 'a' <= c <= 'f' then c as nat - 'a' as nat + 10
    else c as nat - 'A' as nat + 10
  }

  /** The lower-case digit for a nibble; it reads back as the same nibble. */
  function LowerDigit(v: nat): (c: char)
    requires v < 16
    ensures IsLowerHexDigit(c) && IsHexDigit(c) && DigitValue(c) == v
  {
    if v < 10 then ('0' as nat + v) as char else ('a' as nat + v - 10) as char
  }

  /** ASCII lower-casing, the only normalisation the codec round trip performs. */
  function ToLower(c: char): char {
    if 'A' <= c <= 'Z' then (c as nat + 32) as char else c
  }

  function LowerAscii(s: string): (r: string)
    ensures |r| == |s|
    ensures forall i :: 0 <= i < |s| ==> r[i] == ToLower(s[i])
  {
    seq(|s|, i requires 0 <= i < |s| => ToLower(s[i]))
  }

  /** Python 2 `t.decode('hex')`: None stands for the TypeError it raises. */
  function Unhexlify(t: string): (r: Option<seq<Byte>>)
    ensures r.Some? <==> IsHexString(t)
    ensures r.Some? ==> 2 * |r.value| == |t|
  {
    if |t| % 2 != 0 then None else DecodePairs(t)
  }

  /** Decodes an even-length text two digits at a time, high nibble first. */
  function DecodePairs(t: string): (r: Option<seq<Byte>>)
    requires |t| % 2 == 0
    ensures r.Some? <==> forall i :: 0 <= i < |t| ==> IsHexDigit(t[i])
    ensures r.Some? ==> 2 * |r.value| == |t|
    decreases |t|
  {
    if t == [] then Some([])
    else if !IsHexDigit(t[0]) || !IsHexDigit(t[1]) then None
    else
      match DecodePairs(t[2..])
      case None =>
        assert !(forall i :: 0 <= i < |t| ==> IsHexDigit(t[i])) by {
          var j :| 0 <= j < |t| - 2 && !IsHexDigit(t[2..][j]);
          assert t[j + 2] == t[2..][j];
        }
        None
      case Some(rest) =>
        Some([(16 * DigitValue(t[0]) + DigitValue(t[1])) as Byte] + rest)
  }

  /** Byte i of a decoded text is read from digits 2i (high nibble) and 2i+1 (low nibble). */
  lemma {:induction false} UnhexlifyBytes(t: string)
    requires IsHexString(t)
    ensures Unhexlify(t).Some?
    ensures forall i :: 0 <= i < |Unhexlify(t).value| ==>
      Unhexlify(t).value[i] == 16 * DigitValue(t[2 * i]) + DigitValue(t[2 * i + 1])
  {
    DecodePairsBytes(t);
  }

  lemma {:induction false} DecodePairsBytes(t: string)
    requires IsHexString(t)
    ensures DecodePairs(t).Some?
    ensures forall i :: 0 <= i < |DecodePairs(t).value| ==>
      DecodePairs(t).value[i] == 16 * DigitValue(t[2 * i]) + DigitValue(t[2 * i + 1])
  {
    if t != [] {
      HexStringTail(t);
      DecodePairsBytes(t[2..]);
      var rest := DecodePairs(t[2..]).value;
      DecodePairsStep(t);
      var r := DecodePairs(t).value;
      forall i | 1 <= i < |r|
        ensures r[i] == 16 * DigitValue(t[2 * i]) + DigitValue(t[2 * i + 1])
      {
        assert r[i] == rest[i - 1];
        assert t[2..][2 * (i - 1)] == t[2 * i] && t[2..][2 * (i - 1) + 1] == t[2 * i + 1];
      }
    }
  }

  /** Lower-case hex text of a byte string, two digits per byte. */
  function HexOf(b: seq<Byte>): (t: string)
    ensures |t| == 2 * |b|
    ensures forall i :: 0 <= i < |t| ==> IsLowerHexDigit(t[i])
  {
    if b == [] then "" else [LowerDigit(b[0] / 16), LowerDigit(b[0] % 16)] + HexOf(b[1..])
  }

  /** Reading back the hex text of a byte string gives the same bytes. */
  lemma {:induction false} UnhexlifyHexOf(b: seq<Byte>)
    ensures Unhexlify(HexOf(b)) == Some(b)
  {
    if b != [] {
      UnhexlifyHexOf(b[1..]);
      var t := HexOf(b);
      HexOfCons(b[0], b[1..]);
      assert [b[0]] + b[1..] == b;
      assert t[0] == LowerDigit(b[0] / 16) && t[1] == LowerDigit(b[0] % 16);
      assert t[2..] == HexOf(b[1..]);
      DecodePairsStep(t);
      assert 16 * (b[0] / 16) + b[0] % 16 == b[0];
      assert DecodePairs(t) == Some([b[0]] + b[1..]);
    }
  }

  /** Decoding a text whose first pair is hex prepends that pair's byte to the rest. */
  lemma DecodePairsStep(t: string)
    requires |t| >= 2 && |t| % 2 == 0 && IsHexDigit(t[0]) && IsHexDigit(t[1])
    requires DecodePairs(t[2..]).Some?
    ensures DecodePairs(t) == Some([(16 * DigitValue(t[0]) + DigitValue(t[1])) as Byte] + DecodePairs(t[2..]).value)
  {
  }

  /** Writing back decoded hex text gives the text, lower-cased. */
  lemma {:induction false} HexOfDecodePairs(t: string)
    requires IsHexString(t)
    ensures DecodePairs(t).Some? && HexOf(DecodePairs(t).value) == LowerAscii(t)
  {
    if t != [] {
      HexStringTail(t);
      HexOfDecodePairs(t[2..]);
      var rest := DecodePairs(t[2..]).value;
      var x := (16 * DigitValue(t[0]) + DigitValue(t[1])) as Byte;
      assert DecodePairs(t) == Some([x] + rest);
      PairDigits(t[0], t[1]);
      HexOfCons(x, rest);
      LowerAsciiPair(t);
    }
  }

  lemma HexStringTail(t: string)
    requires IsHexString(t) && t != []
    ensures IsHexString(t[2..])
  {
    forall i | 0 <= i < |t| - 2 ensures IsHexDigit(t[2..][i]) {
      assert t[2..][i] == t[i + 2];
    }
  }

  /** The byte read from two digits prints back as those digits, lower-cased. */
  lemma PairDigits(hi: char, lo: char)
    requires IsHexDigit(hi) && IsHexDigit(lo)
    ensures var x := 16 * DigitValue(hi) + DigitValue(lo);
      LowerDigit(x / 16) == ToLower(hi) && LowerDigit(x % 16) == ToLower(lo)
  {
    var x := 16 * DigitValue(hi) + DigitValue(lo);
    assert x / 16 == DigitValue(hi) && x % 16 == DigitValue(lo);
    LowerDigitOfValue(hi);
    LowerDigitOfValue(lo);
  }

  lemma HexOfCons(x: Byte, rest: seq<Byte>)
    ensures HexOf([x] + rest) == [LowerDigit(x / 16), LowerDigit(x % 16)] + HexOf(rest)
  {
    assert ([x] + rest)[1..] == rest;
  }

  lemma LowerAsciiPair(t: string)
    requires |t| >= 2
    ensures LowerAscii(t) == [ToLower(t[0]), ToLower(t[1])] + LowerAscii(t[2..])
  {
    var r := [ToLower(t[0]), ToLower(t[1])] + LowerAscii(t[2..]);
    forall i | 2 <= i < |t| ensures r[i] == ToLower(t[i]) {
      assert r[i] == LowerAscii(t[2..])[i - 2];
    }
  }

  /** Re-printing a digit's value gives the digit, lower-cased. */
  lemma LowerDigitOfValue(c: char)
    requires IsHexDigit(c)
    ensures LowerDigit(DigitValue(c)) == ToLower(c)
  {
  }

  /**
   * pyethapp's `address_encoder`, which is not part of this model; only its
   * output format is used: `0x` then the lower-case hex of the bytes.
   */
  function AddressEncoder(b: seq<Byte>): (s: string)
    ensures |s| == 2 + 2 * |b| && s[..2] == "0x"
    ensures forall i :: 2 <= i < |s| ==> IsLowerHexDigit(s[i])
    ensures Unhexlify(s[2..]) == Some(b)
  {
    UnhexlifyHexOf(b);
    assert ("0x" + HexOf(b))[2..] == HexOf(b);
    "0x" + HexOf(b)
  }
}
