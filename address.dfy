/**
  Checksummed account addresses (src/types/address.rs).

  An address is 32 bytes. Its text form appends the last 4 bytes of the
  SHA-512/256 hash of those 32 bytes and writes the 36 bytes in unpadded base32.
  Parsing undoes this, failing in a fixed order: invalid base32 first, then a
  decoded length below 32, then a checksum mismatch; a final re-encoding check
  ends the parse with a panic (`unreachable!()`) when the input is not the
  canonical text of the parsed address.

  SHA-512/256 is not modelled: every member takes the hash function as a
  parameter `sha`, of which only the 32-byte output length is known.
 */
module AddressCodec {
  import opened Wrappers
  import opened Basics
  import Base32

  const CHECKSUM_LEN: nat := 4
  const HASH_LEN: nat := 32

  /** A hash function with 32-byte digests, standing for SHA-512/256. */
  type Sha512_256 = f: seq<byte> -> seq<byte> | forall m :: |f(m)| == 32
    witness (m: seq<byte>) => Zeros(32)

  datatype AddressError = InvalidBase32 | WrongLength | InvalidChecksum

  datatype Address = Address(bytes: Bytes32)

  /** The derived `Default`: `Address([0; 32])`. */
  const ZeroAddress: Address := Address(Zero32)

  /** The last 4 bytes of the hash of the address bytes. */
  function Checksum(sha: Sha512_256, a: Address): (r: seq<byte>)
    ensures |r| == CHECKSUM_LEN
    ensures sha(a.bytes) == sha(a.bytes)[..HASH_LEN - CHECKSUM_LEN] + r
  {
    var h := sha(a.bytes);
    h[|h| - CHECKSUM_LEN..]
  }

  predicate IsZero(a: Address) {
    a == ZeroAddress
  }

  /** `is_zero` holds exactly when all 32 bytes are zero, that is, of the default address. */
  lemma IsZeroIffAllBytesZero(a: Address)
    ensures IsZero(a) <==> forall i :: 0 <= i < HASH_LEN ==> a.bytes[i] == 0
  {
    if forall i :: 0 <= i < HASH_LEN ==> a.bytes[i] == 0 {
      assert a.bytes == Zero32;
    }
  }

  /** `Display`: base32 without padding of the address bytes followed by the checksum. */
  function ToString(sha: Sha512_256, a: Address): (s: string)
  {
    Base32.Encode(a.bytes + Checksum(sha, a))
  }

  /** Every address text has 58 characters. */
  lemma ToStringLength(sha: Sha512_256, a: Address)
    ensures |ToString(sha, a)| == 58
  {
    Base32.EncodeLength(a.bytes + Checksum(sha, a));
  }

  /** The outcome of `from_str`; `Panic` is the `unreachable!()` branch. */
  datatype ParseResult = Ok(addr: Address) | Err(error: AddressError) | Panic

  /** `FromStr::from_str`, step by step. */
  function Parse(sha: Sha512_256, addr: string): (r: ParseResult)
    ensures r.Ok? ==> ToString(sha, r.addr) == addr
  {
    match Base32.Decode(addr)
    case None => Err(InvalidBase32)
    case Some(decoded) =>
      if |decoded| < HASH_LEN then Err(WrongLength)
      else
        var short := Address(decoded[..HASH_LEN]);
        if decoded[|decoded| - CHECKSUM_LEN..] != Checksum(sha, short) then Err(InvalidChecksum)
        else if ToString(sha, short) != addr then Panic
        else Ok(short)
  }

  /** `fmt`: the address and its checksum, copied into a 36-byte buffer, encoded. */
  method Fmt(sha: Sha512_256, a: Address) returns (s: string)
    ensures s == ToString(sha, a)
  {
    var withChecksum := WithChecksum(a.bytes, Checksum(sha, a));
    s := Base32.Encode(withChecksum[..]);
  }

  /** The zeroed buffer `addr_with_checksum` after its two `copy_from_slice` calls. */
  method WithChecksum(bytes: Bytes32, sum: seq<byte>) returns (buffer: array<byte>)
    requires |sum| == CHECKSUM_LEN
    ensures fresh(buffer)
    ensures buffer[..] == bytes + sum
  {
    buffer := new byte[HASH_LEN + CHECKSUM_LEN](_ => 0);
    for i := 0 to HASH_LEN
      invariant forall k :: 0 <= k < i ==> buffer[k] == bytes[k]
    {
      buffer[i] := bytes[i];
    }
    for i := HASH_LEN to HASH_LEN + CHECKSUM_LEN
      invariant forall k :: 0 <= k < HASH_LEN ==> buffer[k] == bytes[k]
      invariant forall k :: HASH_LEN <= k < i ==> buffer[k] == sum[k - HASH_LEN]
    {
      buffer[i] := sum[i - HASH_LEN];
    }
  }

  /** `from_str`. */
  method FromStr(sha: Sha512_256, addr: string) returns (r: ParseResult)
    ensures r == Parse(sha, addr)
  {
    var d := Base32.Decode(addr);
    if d.None? {
      return Err(InvalidBase32);
    }
    var decoded := d.value;
    if |decoded| < HASH_LEN {
      return Err(WrongLength);
    }
    var short := CopyPrefix(decoded);
    var incoming := decoded[|decoded| - CHECKSUM_LEN..];
    if incoming != Checksum(sha, short) {
      return Err(InvalidChecksum);
    }
    var canonical := Fmt(sha, short);
    if canonical != addr {
      return Panic;
    }
    return Ok(short);
  }

  /** The first 32 decoded bytes, copied into a zeroed `short` buffer in place. */
  method CopyPrefix(decoded: seq<byte>) returns (short: Address)
    requires |decoded| >= HASH_LEN
    ensures short.bytes == decoded[..HASH_LEN]
  {
    var buffer := new byte[HASH_LEN](_ => 0);
    for i := 0 to HASH_LEN
      invariant forall k :: 0 <= k < i ==> buffer[k] == decoded[k]
    {
      buffer[i] := decoded[i];
    }
    assert buffer[..] == decoded[..HASH_LEN];
    short := Address(buffer[..]);
  }

  /** Round trip: every address parses back from its text. */
  lemma ParseToString(sha: Sha512_256, a: Address)
    ensures Parse(sha, ToString(sha, a)) == Ok(a)
  {
    var data := a.bytes + Checksum(sha, a);
    Base32.DecodeEncode(data);
    assert data[..HASH_LEN] == a.bytes;
    assert data[|data| - CHECKSUM_LEN..] == Checksum(sha, a);
  }

  /** A parse succeeds exactly on the canonical texts of addresses. */
  lemma ParseOkIffCanonical(sha: Sha512_256, s: string)
    ensures Parse(sha, s).Ok? <==> exists a :: s == ToString(sha, a)
  {
    if a :| s == ToString(sha, a) {
      ParseToString(sha, a);
    }
  }

  /** A successful parse decodes exactly 36 bytes. */
  lemma ParseOkDecodes36(sha: Sha512_256, s: string)
    requires Parse(sha, s).Ok?
    ensures Base32.Decode(s).Some? && |Base32.Decode(s).value| == HASH_LEN + CHECKSUM_LEN
  {
    var a := Parse(sha, s).addr;
    ParseToString(sha, a);
    Base32.DecodeEncode(a.bytes + Checksum(sha, a));
  }

  /** The failures of a parse, in the order the checks are made. */
  lemma ParseErrors(sha: Sha512_256, s: string)
    ensures Parse(sha, s) == Err(InvalidBase32) <==> Base32.Decode(s).None?
    ensures Parse(sha, s) == Err(WrongLength) <==>
              Base32.Decode(s).Some? && |Base32.Decode(s).value| < HASH_LEN
    ensures var d := Base32.Decode(s);
            Parse(sha, s) == Err(InvalidChecksum) <==>
              d.Some? && |d.value| >= HASH_LEN &&
              d.value[|d.value| - CHECKSUM_LEN..] != Checksum(sha, Address(d.value[..HASH_LEN]))
  {
  }

  /** The `unreachable!()` branch is reached exactly when the text decodes to at least
      32 bytes but not to 36, and the last 4 decoded bytes match the checksum of the
      first 32. */
  lemma ParsePanics(sha: Sha512_256, s: string)
    ensures var d := Base32.Decode(s);
            Parse(sha, s) == Panic <==>
              d.Some? && |d.value| >= HASH_LEN && |d.value| != HASH_LEN + CHECKSUM_LEN &&
              d.value[|d.value| - CHECKSUM_LEN..] == Checksum(sha, Address(d.value[..HASH_LEN]))
  {
    var d := Base32.Decode(s);
    if d.Some? && |d.value| >= HASH_LEN {
      var decoded := d.value;
      var short := Address(decoded[..HASH_LEN]);
      if decoded[|decoded| - CHECKSUM_LEN..] == Checksum(sha, short) {
        ToStringLength(sha, short);
        Base32.EncodeDecode(s);
        Base32.EncodeLength(decoded);
        if |decoded| == HASH_LEN + CHECKSUM_LEN {
          assert decoded == short.bytes + Checksum(sha, short);
        }
      }
    }
  }

  /** Any text that is not base32 (a foreign character, an impossible length, or
      non-zero trailing bits) is refused as such before anything else is checked. */
  lemma ForeignCharacterIsInvalidBase32(sha: Sha512_256, s: string, i: nat)
    requires i < |s| && s[i] !in Base32.Alphabet
    ensures Parse(sha, s) == Err(InvalidBase32)
  {
    Base32.RejectsForeignCharacter(s, i);
  }

  lemma BadLengthIsInvalidBase32(sha: Sha512_256, s: string)
    requires !Base32.ValidLength(|s|)
    ensures Parse(sha, s) == Err(InvalidBase32)
  {
    Base32.RejectsLength(s);
  }

  // The unit tests of address.rs, for every address and every hash function.

  /** Test `too_short`. */
  lemma EmptyIsWrongLength(sha: Sha512_256)
    ensures Parse(sha, "") == Err(WrongLength)
  {
    assert Base32.Values("") == Some([]);
    assert Base32.Unpack([], 5) == [];
  }

  /** Tests `wrong_checksum` and `wrong_checksum_space`: the last character replaced
      by one outside the alphabet. */
  lemma LastCharacterReplaced(sha: Sha512_256, a: Address, c: char)
    requires c !in Base32.Alphabet
    ensures var s := ToString(sha, a);
            Parse(sha, s[..|s| - 1] + [c]) == Err(InvalidBase32)
  {
    var s := ToString(sha, a);
    ToStringLength(sha, a);
    var t := s[..|s| - 1] + [c];
    Base32.RejectsForeignCharacter(t, |t| - 1);
  }

  /** Tests `wrong_address_add_char` and `wrong_address_invalid_char`: a character
      put in front gives 59 characters, an impossible base32 length. */
  lemma CharacterPrepended(sha: Sha512_256, a: Address, c: char)
    ensures Parse(sha, [c] + ToString(sha, a)) == Err(InvalidBase32)
  {
    ToStringLength(sha, a);
    BadLengthIsInvalidBase32(sha, [c] + ToString(sha, a));
  }

  /** Test `wrong_address_replace_char`: with the first character replaced by '4',
      the text still decodes, and the parse fails on the checksum unless the new
      first 32 bytes happen to carry the same checksum; it never panics and never
      gives back the original address. */
  lemma FirstCharacterReplaced(sha: Sha512_256, a: Address)
    requires ToString(sha, a)[0] != '4'
    ensures var s := ToString(sha, a);
            var r := Parse(sha, "4" + s[1..]);
            r == Err(InvalidChecksum) || (r.Ok? && r.addr != a)
  {
    var s := ToString(sha, a);
    ToStringLength(sha, a);
    Base32.DecodeEncode(a.bytes + Checksum(sha, a));
    Base32.DecodedWithTwoTrailingBits(s);
    assert Base32.SymbolValue('4') == Some(28);
    Base32.ReplaceFirstSymbol(s, '4');
    var t := "4" + s[1..];
    Base32.DecodesWithTwoTrailingBits(t);
    ParsePanics(sha, t);
    if Parse(sha, t).Ok? {
      assert t[0] != s[0];
    }
  }

  /** Test `non_canonical`: the test literal with its last character one step further
      along the alphabet leaves non-zero trailing bits, so it is not base32. */
  lemma NonCanonicalLiteral(sha: Sha512_256)
    ensures Parse(sha, "J5YDZLPOHWB5O6MVRHNFGY4JXIQAYYM6NUJWPBSYBBIXH5ENQ4Z5LTJELV") == Err(InvalidBase32)
  {
    var v := "J5YDZLPOHWB5O6MVRHNFGY4JXIQAYYM6NUJWPBSYBBIXH5ENQ4Z5LTJELV";
    assert |v| == 58 && v[57] == 'V';
    assert Base32.SymbolValue('V') == Some(21);
    Base32.RejectsTrailingBits(v);
  }

  /** The finding: the `unreachable!()` branch is reached by the text of 37 bytes that
      end in the checksum of the first 32, which decodes and passes the checksum
      check but is not the text of the address it decodes to. */
  lemma PanicOnOverlongInput(sha: Sha512_256, a: Address, x: byte)
    ensures Parse(sha, Base32.Encode(a.bytes + [x] + Checksum(sha, a))) == Panic
  {
    var data := a.bytes + [x] + Checksum(sha, a);
    Base32.DecodeEncode(data);
    assert data[..HASH_LEN] == a.bytes;
    assert data[|data| - CHECKSUM_LEN..] == Checksum(sha, a);
    Base32.EncodeLength(data);
    ToStringLength(sha, a);
  }

  /** The evidently intended parse: a decoded length other than 36 is refused as
      WrongLength before the checksum is compared, so nothing is left to panic. */
  function ParseChecked(sha: Sha512_256, addr: string): (r: Result)
  {
    match Base32.Decode(addr)
    case None => Failure(InvalidBase32)
    case Some(decoded) =>
      if |decoded| != HASH_LEN + CHECKSUM_LEN then Failure(WrongLength)
      else
        var short := Address(decoded[..HASH_LEN]);
        if decoded[HASH_LEN..] != Checksum(sha, short) then Failure(InvalidChecksum)
        else Success(short)
  }

  datatype Result = Success(addr: Address) | Failure(error: AddressError)

  /** The corrected parse accepts exactly the canonical texts, gives back the address
      they are the text of, and agrees with the original wherever that does not panic. */
  lemma ParseCheckedSound(sha: Sha512_256, s: string)
    ensures ParseChecked(sha, s).Success? ==> ToString(sha, ParseChecked(sha, s).addr) == s
    ensures forall a :: s == ToString(sha, a) ==> ParseChecked(sha, s) == Success(a)
    ensures Parse(sha, s).Ok? ==> ParseChecked(sha, s) == Success(Parse(sha, s).addr)
  {
    var d := Base32.Decode(s);
    if d.Some? && |d.value| == HASH_LEN + CHECKSUM_LEN {
      var short := Address(d.value[..HASH_LEN]);
      assert d.value[|d.value| - CHECKSUM_LEN..] == d.value[HASH_LEN..];
      if d.value[HASH_LEN..] == Checksum(sha, short) {
        assert d.value == short.bytes + Checksum(sha, short);
        Base32.EncodeDecode(s);
      }
    }
    forall a | s == ToString(sha, a) ensures ParseChecked(sha, s) == Success(a) {
      var data := a.bytes + Checksum(sha, a);
      Base32.DecodeEncode(data);
      assert data[..HASH_LEN] == a.bytes;
      assert data[HASH_LEN..] == Checksum(sha, a);
    }
  }

  /** The corrected parse never reaches a state the original treats as impossible:
      it fails exactly where the original fails or panics. */
  lemma ParseCheckedNeverPanics(sha: Sha512_256, s: string)
    ensures ParseChecked(sha, s).Failure? <==> !Parse(sha, s).Ok?
  {
    ParseCheckedSound(sha, s);
    if ParseChecked(sha, s).Success? {
      ParseToString(sha, ParseChecked(sha, s).addr);
    }
  }
}
