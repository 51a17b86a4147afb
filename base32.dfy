/**
  Base32 without padding: the alphabet of section 6 of RFC 4648, with the padding
  characters of section 3.2 dropped and the canonical-encoding rule of section 3.5
  enforced on decoding (the behaviour of `data_encoding::BASE32_NOPAD`).

  Bytes are read as a bit string, eight bits each, most significant first; the bit
  string is cut into five-bit symbols, the last one completed with zero bits.
  Decoding reverses this and refuses
  - a length that no byte string encodes to (a final quantum of 1, 3 or 6 symbols),
  - a character outside the alphabet,
  - a final symbol whose unused low bits are not all zero (a non-canonical text).
 */
module Base32 {
  import opened Wrappers
  import opened Basics

  /** The 32 symbols of section 6 of RFC 4648, in value order. */
  const Alphabet: string := "ABCDEFGHIJKLMNOPQRSTUVWXYZ234567"

  /** The character of a symbol value. */
  function SymbolChar(v: nat): (c: char)
    requires v < 32
    ensures c == Alphabet[v]
  {
    if v < 26 then ('A' as int + v) as char else ('2' as int + v - 26) as char
  }

  /** The value of an alphabet character; None for every other character. */
  function SymbolValue(c: char): (r: Option<nat>)
    ensures r.Some? ==> r.value < 32 && SymbolChar(r.value) == c
  {
    if 'A' <= c <= 'Z' then Some(c as int - 'A' as int)
    else if '2' <= c <= '7' then Some(c as int - '2' as int + 26)
    else None
  }

  lemma SymbolValueOfChar(v: nat)
    requires v < 32
    ensures SymbolValue(SymbolChar(v)) == Some(v)
  {
  }

  /** Exactly the characters of the alphabet have a value. */
  lemma SymbolValueInAlphabet(c: char)
    ensures SymbolValue(c).Some? <==> c in Alphabet
  {
    if c in Alphabet {
      var v :| 0 <= v < 32 && Alphabet[v] == c;
      SymbolValueOfChar(v);
    }
  }

  function Pow2(w: nat): (r: nat)
    ensures r >= 1
  {
    if w == 0 then 1 else 2 * Pow2(w - 1)
  }

  lemma Pow2Widths()
    ensures Pow2(5) == 32 && Pow2(8) == 256
  {
    assert Pow2(2) == 4;
    assert Pow2(4) == 16;
  }

  /** The w low-order bits of n, most significant first. */
  function ToBits(n: nat, w: nat): (r: seq<bool>)
    ensures |r| == w
  {
    if w == 0 then [] else ToBits(n / 2, w - 1) + [n % 2 == 1]
  }

  /** The number whose binary digits, most significant first, are b. */
  function FromBits(b: seq<bool>): (r: nat)
    ensures r < Pow2(|b|)
  {
    if b == [] then 0 else 2 * FromBits(b[..|b| - 1]) + (if b[|b| - 1] then 1 else 0)
  }

  lemma {:induction false} FromBitsToBits(n: nat, w: nat)
    requires n < Pow2(w)
    ensures FromBits(ToBits(n, w)) == n
  {
    if w > 0 {
      var b := ToBits(n, w);
      assert b[..w - 1] == ToBits(n / 2, w - 1);
      FromBitsToBits(n / 2, w - 1);
    }
  }

  lemma {:induction false} ToBitsFromBits(b: seq<bool>)
    ensures ToBits(FromBits(b), |b|) == b
  {
    if b != [] {
      var n := FromBits(b);
      var front := b[..|b| - 1];
      assert n / 2 == FromBits(front);
      ToBitsFromBits(front);
      assert b == front + [b[|b| - 1]];
    }
  }

  /** Each value written with w bits, concatenated in order. */
  function Unpack(vals: seq<nat>, w: nat): (r: seq<bool>)
    ensures |r| == w * |vals|
  {
    if vals == [] then [] else ToBits(vals[0], w) + Unpack(vals[1..], w)
  }

  /** The bit string cut into w-bit groups, each read as a number; a short tail is dropped. */
  function Pack(bits: seq<bool>, w: nat): (r: seq<nat>)
    requires w > 0
    ensures forall i :: 0 <= i < |r| ==> r[i] < Pow2(w)
    decreases |bits|
  {
    if |bits| < w then [] else [FromBits(bits[..w])] + Pack(bits[w..], w)
  }

  lemma {:induction false} UnpackAppend(a: seq<nat>, b: seq<nat>, w: nat)
    ensures Unpack(a + b, w) == Unpack(a, w) + Unpack(b, w)
  {
    if a != [] {
      assert (a + b)[1..] == a[1..] + b;
      UnpackAppend(a[1..], b, w);
    } else {
      assert a + b == b;
    }
  }

  lemma {:induction false} PackUnpack(vals: seq<nat>, w: nat)
    requires w > 0
    requires forall i :: 0 <= i < |vals| ==> vals[i] < Pow2(w)
    ensures Pack(Unpack(vals, w), w) == vals
  {
    if vals != [] {
      var head := ToBits(vals[0], w);
      var rest := Unpack(vals[1..], w);
      var bits := Unpack(vals, w);
      assert bits == head + rest;
      assert bits[..w] == head;
      assert bits[w..] == rest;
      FromBitsToBits(vals[0], w);
      PackUnpack(vals[1..], w);
      assert Pack(bits, w) == [FromBits(head)] + Pack(rest, w);
      assert vals == [vals[0]] + vals[1..];
    }
  }

  lemma {:induction false} UnpackPack(bits: seq<bool>, w: nat, k: nat)
    requires w > 0 && |bits| == w * k
    ensures |Pack(bits, w)| == k
    ensures Unpack(Pack(bits, w), w) == bits
  {
    if k > 0 {
      assert |bits| >= w by { assert w * k == w + w * (k - 1); }
      assert |bits[w..]| == w * (k - 1);
      UnpackPack(bits[w..], w, k - 1);
      ToBitsFromBits(bits[..w]);
      assert bits == bits[..w] + bits[w..];
    }
  }

  /** The symbol values of a text, or None when a character is outside the alphabet. */
  function Values(s: string): (r: Option<seq<nat>>)
    ensures r.Some? <==> forall i :: 0 <= i < |s| ==> SymbolValue(s[i]).Some?
    ensures r.Some? ==> |r.value| == |s|
    ensures r.Some? ==> forall i :: 0 <= i < |s| ==> SymbolValue(s[i]) == Some(r.value[i])
  {
    if forall i :: 0 <= i < |s| ==> SymbolValue(s[i]).Some? then
      Some(seq(|s|, i requires 0 <= i < |s| => SymbolValue(s[i]).value))
    else
      None
  }

  /** The text of a sequence of symbol values. */
  function Symbols(vals: seq<nat>): (s: string)
    requires forall i :: 0 <= i < |vals| ==> vals[i] < 32
    ensures |s| == |vals|
    ensures forall i :: 0 <= i < |s| ==> s[i] == SymbolChar(vals[i])
  {
    seq(|vals|, i requires 0 <= i < |vals| => SymbolChar(vals[i]))
  }

  /** Number of zero bits that complete an n-bit string to whole symbols. */
  function PadLen(n: nat): (p: nat)
    ensures p < 5 && (n + p) % 5 == 0
  {
    (5 - n % 5) % 5
  }

  function FalseBits(n: nat): (r: seq<bool>)
    ensures |r| == n && forall i :: 0 <= i < n ==> !r[i]
  {
    seq(n, i => false)
  }

  function BytesAsNats(data: seq<byte>): (r: seq<nat>)
    ensures |r| == |data| && forall i :: 0 <= i < |r| ==> r[i] == data[i]
  {
    seq(|data|, i requires 0 <= i < |data| => data[i] as nat)
  }

  /** The bits of a byte string, completed with zero bits to whole symbols. */
  function PaddedBits(data: seq<byte>): (bits: seq<bool>)
  {
    var raw := Unpack(BytesAsNats(data), 8);
    raw + FalseBits(PadLen(|raw|))
  }

  /** `BASE32_NOPAD.encode` */
  function Encode(data: seq<byte>): (s: string)
  {
    Symbols(Pack(PaddedBits(data), 5))
  }

  lemma PadLenOf(n: nat, l: nat, m: nat)
    requires n + l == 5 * m && l < 5
    ensures PadLen(n) == l
  {
  }

  lemma ByteCount(bytes: nat, p: nat, k: nat)
    requires 8 * bytes + p == 5 * k && p < 5
    ensures (5 * k) % 8 < 5 && (5 * k) / 8 == bytes
  {
  }

  lemma LastQuantumOfTwo(k: nat)
    requires k % 8 == 2
    ensures 8 * ((5 * k) / 8) == 5 * (k - 1) + 3
    ensures ValidLength(k)
  {
  }

  /** True when the lengths of the text admit a decoding: the bits left over
      after the last whole byte do not fill a symbol. */
  predicate ValidLength(n: nat) {
    (5 * n) % 8 < 5
  }

  predicate AllFalse(b: seq<bool>) {
    forall i :: 0 <= i < |b| ==> !b[i]
  }

  /** `BASE32_NOPAD.decode`: None stands for every `DecodeError`. */
  function Decode(s: string): (r: Option<seq<byte>>)
  {
    if !ValidLength(|s|) then None
    else
      match Values(s)
      case None => None
      case Some(vals) =>
        var bits := Unpack(vals, 5);
        var n := |bits| / 8;
        if !AllFalse(bits[8 * n..]) then None
        else
          var bytes := Pack(bits[..8 * n], 8);
          assert forall i :: 0 <= i < |bytes| ==> bytes[i] < 256 by { Pow2Widths(); }
          Some(bytes)
  }

  /** The encoding of n bytes has ceil(8n / 5) characters. */
  lemma EncodeLength(data: seq<byte>)
    ensures |Encode(data)| == (8 * |data| + 4) / 5
  {
    var padded := PaddedBits(data);
    UnpackPack(padded, 5, |padded| / 5);
  }

  lemma ValuesSymbols(vals: seq<nat>)
    requires forall i :: 0 <= i < |vals| ==> vals[i] < 32
    ensures Values(Symbols(vals)) == Some(vals)
  {
    var s := Symbols(vals);
    forall i | 0 <= i < |s| ensures SymbolValue(s[i]) == Some(vals[i]) {
      SymbolValueOfChar(vals[i]);
    }
    var r := Values(s);
    assert r.Some?;
    assert |r.value| == |vals|;
    forall i | 0 <= i < |vals| ensures r.value[i] == vals[i] {
      assert SymbolValue(s[i]) == Some(r.value[i]);
    }
    assert r.value == vals;
  }

  /** The bits a text of valid symbols carries, and how Decode splits them. */
  lemma DecodeUnfold(s: string, vals: seq<nat>)
    requires ValidLength(|s|) && Values(s) == Some(vals)
    ensures var bits := Unpack(vals, 5);
            var n := |bits| / 8;
            && |bits| == 5 * |s|
            && |bits| - 8 * n < 5
            && Decode(s) == if AllFalse(bits[8 * n..]) then Some(Pack(bits[..8 * n], 8)) else None
  {
  }

  /** Every byte string survives an encode-decode round trip. */
  lemma {:induction false} DecodeEncode(data: seq<byte>)
    ensures Decode(Encode(data)) == Some(data)
  {
    var nats := BytesAsNats(data);
    var bits := Unpack(nats, 8);
    var p := PadLen(|bits|);
    var padded := PaddedBits(data);
    assert padded == bits + FalseBits(p);
    var k := |padded| / 5;
    UnpackPack(padded, 5, k);
    var vals := Pack(padded, 5);
    var s := Encode(data);
    ByteCount(|data|, p, k);
    Pow2Widths();
    ValuesSymbols(vals);
    DecodeUnfold(s, vals);
    assert Unpack(vals, 5) == padded;
    assert padded[8 * |data|..] == FalseBits(p);
    assert padded[..8 * |data|] == bits;
    PackUnpack(nats, 8);
    assert nats == data;
  }

  /** A text that decodes is the encoding of what it decodes to: decoding accepts
      only canonical texts. */
  lemma {:induction false} EncodeDecode(s: string)
    requires Decode(s).Some?
    ensures Encode(Decode(s).value) == s
  {
    var vals := Values(s).value;
    DecodeUnfold(s, vals);
    var bits := Unpack(vals, 5);
    var n := |bits| / 8;
    var l := |bits| - 8 * n;
    var data := Decode(s).value;
    UnpackPack(bits[..8 * n], 8, n);
    var nats := BytesAsNats(data);
    assert nats == Pack(bits[..8 * n], 8);
    var ebits := Unpack(nats, 8);
    assert ebits == bits[..8 * n];
    PadLenOf(|ebits|, l, |s|);
    assert bits[8 * n..] == FalseBits(l);
    assert PaddedBits(data) == bits;
    Pow2Widths();
    forall i | 0 <= i < |vals| ensures vals[i] < Pow2(5) {
      assert SymbolValue(s[i]) == Some(vals[i]);
    }
    PackUnpack(vals, 5);
    forall i | 0 <= i < |s| ensures Symbols(vals)[i] == s[i] {
      assert SymbolValue(s[i]) == Some(vals[i]);
    }
  }

  /** A text with a character outside the alphabet does not decode. */
  lemma RejectsForeignCharacter(s: string, i: nat)
    requires i < |s| && s[i] !in Alphabet
    ensures Decode(s) == None
  {
    assert SymbolValue(s[i]).None?;
  }

  /** A text whose length leaves at least five bits after the last byte does not decode. */
  lemma RejectsLength(s: string)
    requires !ValidLength(|s|)
    ensures Decode(s) == None
  {
  }

  lemma LowBits(v: nat)
    ensures ToBits(v, 5)[4] == (v % 2 == 1)
    ensures ToBits(v, 5)[3] == ((v / 2) % 2 == 1)
  {
    var t := ToBits(v / 2, 4);
    assert ToBits(v, 5) == t + [v % 2 == 1];
    assert t == ToBits(v / 2 / 2, 3) + [(v / 2) % 2 == 1];
  }

  /** The two low bits of a number are both zero exactly when it is a multiple of 4. */
  lemma LowTwoBits(v: nat)
    ensures (v % 2 == 0 && (v / 2) % 2 == 0) <==> v % 4 == 0
  {
    var q := v / 4;
    var r := v % 4;
    assert v == 4 * q + r;
    assert v / 2 == 2 * q + r / 2;
    assert v % 2 == r % 2;
    assert (v / 2) % 2 == (r / 2) % 2;
  }

  lemma UnpackOne(v: nat, w: nat)
    ensures Unpack([v], w) == ToBits(v, w)
  {
    assert [v][1..] == [];
  }

  /** With 8q + 2 characters, the bits after the last whole byte are the two low
      bits of the last symbol. */
  lemma {:induction false} TrailingBitsOfTwo(s: string, vals: seq<nat>)
    requires |s| % 8 == 2 && Values(s) == Some(vals)
    ensures ValidLength(|s|)
    ensures var bits := Unpack(vals, 5);
            && 8 * (|bits| / 8) == |bits| - 2
            && bits[8 * (|bits| / 8)..] == ToBits(vals[|vals| - 1], 5)[3..]
  {
    var k := |vals|;
    var v := vals[k - 1];
    assert vals == vals[..k - 1] + [v];
    UnpackAppend(vals[..k - 1], [v], 5);
    UnpackOne(v, 5);
    LastQuantumOfTwo(k);
    var bits := Unpack(vals, 5);
    var front := Unpack(vals[..k - 1], 5);
    assert bits == front + ToBits(v, 5);
    assert |front| == 5 * (k - 1);
  }

  /** With 8q + 2 characters the last symbol carries two unused bits: the text decodes
      only if they are zero (section 3.5 of RFC 4648). */
  lemma {:induction false} RejectsTrailingBits(s: string)
    requires |s| % 8 == 2
    requires SymbolValue(s[|s| - 1]).Some? && SymbolValue(s[|s| - 1]).value % 4 != 0
    ensures Decode(s) == None
  {
    if Values(s).Some? {
      var vals := Values(s).value;
      var v := vals[|vals| - 1];
      assert SymbolValue(s[|s| - 1]) == Some(v);
      TrailingBitsOfTwo(s, vals);
      var bits := Unpack(vals, 5);
      var tail := bits[8 * (|bits| / 8)..];
      LowBits(v);
      LowTwoBits(v);
      assert !AllFalse(tail) by {
        if v % 2 == 1 {
          assert tail[1];
        } else {
          assert tail[0];
        }
      }
      DecodeUnfold(s, vals);
    }
  }

  /** With 8q + 2 characters of the alphabet whose last symbol leaves its two unused
      bits zero, the text decodes, to 5q + 1 bytes. */
  lemma {:induction false} DecodesWithTwoTrailingBits(s: string)
    requires |s| % 8 == 2
    requires Values(s).Some?
    requires SymbolValue(s[|s| - 1]).value % 4 == 0
    ensures Decode(s).Some? && |Decode(s).value| == (5 * |s|) / 8
  {
    var vals := Values(s).value;
    var v := vals[|vals| - 1];
    assert SymbolValue(s[|s| - 1]) == Some(v);
    TrailingBitsOfTwo(s, vals);
    var bits := Unpack(vals, 5);
    var n := |bits| / 8;
    LowBits(v);
    LowTwoBits(v);
    assert AllFalse(bits[8 * n..]);
    DecodeUnfold(s, vals);
    UnpackPack(bits[..8 * n], 8, n);
  }

  /** A decodable text of 8q + 2 characters consists of symbols, the last of which
      leaves its two unused bits zero. */
  lemma DecodedWithTwoTrailingBits(s: string)
    requires |s| % 8 == 2 && Decode(s).Some?
    ensures Values(s).Some? && SymbolValue(s[|s| - 1]).value % 4 == 0
  {
    if SymbolValue(s[|s| - 1]).value % 4 != 0 {
      RejectsTrailingBits(s);
    }
  }

  /** Replacing the first character of a text of symbols by another symbol leaves a
      text of symbols with the same last character. */
  lemma ReplaceFirstSymbol(s: string, c: char)
    requires |s| > 1 && Values(s).Some? && SymbolValue(c).Some?
    ensures Values([c] + s[1..]).Some?
    ensures |[c] + s[1..]| == |s| && ([c] + s[1..])[|s| - 1] == s[|s| - 1]
  {
    var t := [c] + s[1..];
    forall i | 0 <= i < |t| ensures SymbolValue(t[i]).Some? {
      if i > 0 {
        assert t[i] == s[i];
      }
    }
  }
}
