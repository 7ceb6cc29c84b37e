/**
 * The hex address codec of raiden's REST API, in its two copies:
 * `AddressField` (request and response bodies) and `HexAddressConverter`
 * (URL path segments). Both decode `0x` + 40 hex digits into 20 bytes and
 * encode with `address_encoder`.
 */
module AddressCodec {
  import opened Common
  import opened HexCodec

  /** The labelled failures of `AddressField._deserialize`, in the order they are checked. */
  datatype AddressError = MissingPrefix | InvalidData | InvalidSize

  /** Python's `s[:n]`: a string shorter than `n` is returned whole. */
  function SliceTo(s: string, n: nat): (r: string)
    ensures |r| == if |s| < n then |s| else n
    ensures r <= s
  {
    if |s| <= n then s else s[..n]
  }

  /** Python's `s[n:]`: empty when the string is shorter than `n`. */
  function SliceFrom(s: string, n: nat): (r: string)
    ensures |r| == if |s| < n then 0 else |s| - n
    ensures n <= |s| ==> r == s[n..]
  {
    if |s| <= n then "" else s[n..]
  }

  /** The text starts with exactly the two characters `0` and `x`. */
  predicate Prefixed(s: string) {
    |s| >= 2 && s[0] == '0' && s[1] == 'x'
  }

  /** A well-formed address text: the prefix, then exactly 40 hex digits of either case. */
  predicate WellFormed(s: string) {
    Prefixed(s) && |s| == 42 && forall i :: 2 <= i < |s| ==> IsHexDigit(s[i])
  }

  lemma HexTail(s: string)
    requires Prefixed(s)
    ensures IsHexString(s[2..]) <==> |s| % 2 == 0 && forall i :: 2 <= i < |s| ==> IsHexDigit(s[i])
  {
    if |s| % 2 == 0 && forall i :: 2 <= i < |s| ==> IsHexDigit(s[i]) {
      forall j | 0 <= j < |s| - 2 ensures IsHexDigit(s[2..][j]) {
        assert s[2..][j] == s[j + 2];
      }
    }
    if IsHexString(s[2..]) {
      forall i | 2 <= i < |s| ensures IsHexDigit(s[i]) {
        assert s[i] == s[2..][i - 2];
      }
    }
  }

  /**
   * `AddressField._deserialize`: the prefix check, then the hex decode,
   * then the 20-byte size check; the first one that fails is reported.
   */
  function Deserialize(s: string): (r: Result<seq<Byte>, AddressError>)
    ensures r == Failure(MissingPrefix) <==> !Prefixed(s)
    ensures r == Failure(InvalidData) <==> Prefixed(s) && !IsHexString(s[2..])
    ensures r == Failure(InvalidSize) <==> Prefixed(s) && IsHexString(s[2..]) && |s| != 42
    ensures r.Success? <==> WellFormed(s)
    ensures r.Success? ==> |r.value| == 20
  {
    if SliceTo(s, 2) != "0x" then
      Failure(MissingPrefix)
    else
      assert SliceTo(s, 2) == [s[0], s[1]];
      HexTail(s);
      match Unhexlify(SliceFrom(s, 2))
      case None => Failure(InvalidData)
      case Some(v) => if |v| != 20 then Failure(InvalidSize) else Success(v)
  }

  /** `AddressField._serialize`: encodes with `address_encoder`; 20 bytes decode back unchanged. */
  function Serialize(b: seq<Byte>): (s: string)
    ensures |s| == 2 + 2 * |b| && Prefixed(s)
    ensures |b| == 20 ==> Deserialize(s) == Success(b)
  {
    AddressEncoder(b)
  }

  /**
   * `HexAddressConverter.to_python`: the same three checks, but each failure
   * is werkzeug's unlabelled `ValidationError`, modelled as None.
   */
  function ToPython(s: string): (r: Option<seq<Byte>>)
    ensures r.Some? <==> Deserialize(s).Success?
    ensures r.Some? ==> r.value == Deserialize(s).value && |r.value| == 20
  {
    if SliceTo(s, 2) != "0x" then None
    else
      match Unhexlify(SliceFrom(s, 2))
      case None => None
      case Some(v) => if |v| != 20 then None else Some(v)
  }

  /** `HexAddressConverter.to_url`: the same text as the body field's encoding. */
  function ToUrl(b: seq<Byte>): (s: string)
    ensures s == Serialize(b)
    ensures |b| == 20 ==> ToPython(s) == Some(b)
  {
    AddressEncoder(b)
  }

  /**
   * Text round trip: an accepted address re-encodes to its own text with
   * every hex letter lower-cased.
   */
  lemma DeserializeSerialize(s: string)
    requires Deserialize(s).Success?
    ensures Serialize(Deserialize(s).value) == LowerAscii(s)
  {
    var t := s[2..];
    HexTail(s);
    HexOfDecodePairs(t);
    assert s == "0x" + t;
    assert LowerAscii(s) == "0x" + LowerAscii(t) by {
      assert LowerAscii(s)[2..] == LowerAscii(t);
    }
  }

  /** Decoded addresses round-trip through both encoders and both decoders. */
  lemma EncodeDecode(b: seq<Byte>)
    requires |b| == 20
    ensures Deserialize(Serialize(b)) == Success(b)
    ensures ToPython(ToUrl(b)) == Some(b)
    ensures ToPython(Serialize(b)) == Some(b) && Deserialize(ToUrl(b)) == Success(b)
  {
  }

  /** The three example inputs: no prefix, bad digits before a wrong size, 19 bytes. */
  lemma ErrorPriorityExamples()
    ensures Deserialize("deadbeef00000000000000000000000000000000") == Failure(MissingPrefix)
    ensures Deserialize("0xzz00000000000000000000000000000000000000") == Failure(InvalidData)
    ensures Deserialize("0x" + "aaaaaaaaaaaaaaaaaaaaaaaaaaaaaaaaaaaaaa") == Failure(InvalidSize)
    ensures Deserialize("0x") == Failure(InvalidSize)
    ensures Deserialize("0") == Failure(MissingPrefix)
  {
    BadDigitBeforeSize();
    ShortHexIsSizeError();
  }

  /** Non-hex text of the right length is reported as invalid data, not as a size error. */
  lemma BadDigitBeforeSize()
    ensures Deserialize("0xzz00000000000000000000000000000000000000") == Failure(InvalidData)
  {
    var bad := "0xzz00000000000000000000000000000000000000";
    assert !IsHexDigit(bad[2..][0]);
  }

  /** Valid hex that is one byte short is a size error. */
  lemma ShortHexIsSizeError()
    ensures Deserialize("0x" + "aaaaaaaaaaaaaaaaaaaaaaaaaaaaaaaaaaaaaa") == Failure(InvalidSize)
  {
    var short := "0x" + "aaaaaaaaaaaaaaaaaaaaaaaaaaaaaaaaaaaaaa";
    assert |short| == 40;
    assert IsHexString(short[2..]) by {
      forall i | 0 <= i < |short[2..]| ensures IsHexDigit(short[2..][i]) {
        assert short[2..][i] == 'a';
      }
    }
  }
}
