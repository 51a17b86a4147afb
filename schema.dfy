/**
  The canonical record encoding every serialisable ledger type follows (the serde
  attributes on the structs of src/types): a record is a sequence of entries, one
  per field, each under the field's fixed tag, in declaration order; a field marked
  `skip_serializing_if = "is_default"` is left out exactly when it holds its type's
  default, and a field marked `default` decodes from an absent tag to that default.

  Values are modelled at the level of serde's data model, not MessagePack bytes.
  A record is a SEQUENCE of entries so that the two records of the source that
  declare one tag twice keep both entries visible.

  Decoding follows serde's derived `Deserialize`: entries with unknown tags are
  ignored, a known tag that occurs twice is refused (`duplicate_field`), a missing
  tag gives the default when the field is marked `default` and is refused otherwise
  (`missing_field`).
 */
module Schema {
  import opened Wrappers
  import opened Basics
  import Util
  import AddressCodec

  type Tag = string

  datatype Value =
    | UInt(n: nat)                          // u8, u32, u64
    | Bytes(bytes: seq<byte>)               // Vec<u8>, byte arrays, keys, signatures, addresses
    | Text(text: string)                    // String; a unit enum variant by its name
    | Bool(b: bool)
    | Nil                                   // Option::None where it is not skipped
    | Array(items: seq<Value>)              // Vec<T>, in element order
    | Record(entries: seq<Entry>)           // a struct
    | TextMap(byText: map<string, Value>)   // HashMap<String, T>: no iteration order
    | UIntMap(byUInt: map<nat, Value>)      // HashMap<u64, T>: no iteration order

  datatype Entry = Entry(tag: Tag, value: Value)

  /** One declared field of a record: its tag, its encoded value, and whether
      serialisation skips it. */
  datatype FieldSpec = Field(tag: Tag, value: Value, skip: bool)

  /** A field with `skip_serializing_if = "is_default"`. */
  function OmitIfDefault<T(==)>(tag: Tag, field: T, default: T, value: Value): FieldSpec
  {
    Field(tag, value, Util.IsDefault(field, default))
  }

  /** A field without `skip_serializing_if`: it is always emitted. */
  function Always(tag: Tag, value: Value): FieldSpec
  {
    Field(tag, value, false)
  }

  function Head(f: FieldSpec): seq<Entry>
  {
    if f.skip then [] else [Entry(f.tag, f.value)]
  }

  /** The entries of a record: every field that is not skipped, in declaration order. */
  function Emit(fs: seq<FieldSpec>): (es: seq<Entry>)
    ensures |es| <= |fs|
  {
    if fs == [] then [] else Head(fs[0]) + Emit(fs[1..])
  }

  function Tags(fs: seq<FieldSpec>): (ts: seq<Tag>)
  {
    seq(|fs|, i requires 0 <= i < |fs| => fs[i].tag)
  }

  function EntryTags(es: seq<Entry>): (ts: seq<Tag>)
  {
    seq(|es|, i requires 0 <= i < |es| => es[i].tag)
  }

  predicate Distinct(ts: seq<Tag>)
  {
    forall i, j :: 0 <= i < j < |ts| ==> ts[i] != ts[j]
  }

  /** No tag of a is a tag of b. */
  predicate Disjoint(a: seq<Tag>, b: seq<Tag>)
  {
    forall i, j :: 0 <= i < |a| && 0 <= j < |b| ==> a[i] != b[j]
  }

  lemma DisjointSymmetric(a: seq<Tag>, b: seq<Tag>)
    requires Disjoint(a, b)
    ensures Disjoint(b, a)
  {
  }

  lemma DisjointNotIn(t: Tag, b: seq<Tag>)
    requires Disjoint([t], b)
    ensures t !in b
  {
    assert [t][0] == t;
  }

  /** No other field of fs that shares the tag of field i is ever emitted. */
  predicate Unique(fs: seq<FieldSpec>, i: nat)
    requires i < |fs|
  {
    forall j :: 0 <= j < |fs| && j != i && fs[j].tag == fs[i].tag ==> fs[j].skip
  }

  /** `#[serde(flatten)]`: flattening a record into its parent puts its entries in
      line with the parent's. */
  lemma {:induction false} EmitAppend(a: seq<FieldSpec>, b: seq<FieldSpec>)
    ensures Emit(a + b) == Emit(a) + Emit(b)
  {
    if a == [] {
      assert a + b == b;
    } else {
      assert (a + b)[0] == a[0];
      assert (a + b)[1..] == a[1..] + b;
      EmitAppend(a[1..], b);
      calc {
        Emit(a + b);
        Head(a[0]) + Emit(a[1..] + b);
        Head(a[0]) + (Emit(a[1..]) + Emit(b));
        (Head(a[0]) + Emit(a[1..])) + Emit(b);
      }
    }
  }

  /** A record of two fields. */
  lemma EmitPair(a: FieldSpec, b: FieldSpec)
    ensures Emit([a, b]) == Head(a) + Head(b)
  {
    assert [a, b][1..] == [b];
    assert [b][1..] == [];
  }

  /** Every emitted entry is one of the fields, not skipped, carrying its value. */
  lemma {:induction false} EmitSound(fs: seq<FieldSpec>, k: nat)
    requires k < |Emit(fs)|
    ensures exists j :: 0 <= j < |fs| && !fs[j].skip && Emit(fs)[k] == Entry(fs[j].tag, fs[j].value)
  {
    var h := Head(fs[0]);
    if k < |h| {
      assert Emit(fs)[k] == Entry(fs[0].tag, fs[0].value);
    } else {
      EmitSound(fs[1..], k - |h|);
      var j :| 0 <= j < |fs[1..]| && !fs[1..][j].skip && Emit(fs[1..])[k - |h|] == Entry(fs[1..][j].tag, fs[1..][j].value);
      assert fs[j + 1] == fs[1..][j];
    }
  }

  /** A record whose fields are all skipped has no entries. */
  lemma {:induction false} EmitAllSkipped(fs: seq<FieldSpec>)
    requires forall i :: 0 <= i < |fs| ==> fs[i].skip
    ensures Emit(fs) == []
  {
    if fs != [] {
      EmitAllSkipped(fs[1..]);
    }
  }

  /** A record none of whose fields is skipped emits every field, in order. */
  lemma {:induction false} EmitNoneSkipped(fs: seq<FieldSpec>)
    requires forall i :: 0 <= i < |fs| ==> !fs[i].skip
    ensures |Emit(fs)| == |fs|
    ensures forall i :: 0 <= i < |fs| ==> Emit(fs)[i] == Entry(fs[i].tag, fs[i].value)
  {
    if fs != [] {
      EmitNoneSkipped(fs[1..]);
    }
  }

  /** Where a tag sits in a record: nowhere, at one index, or more than once. */
  datatype Slot = Absent | At(index: nat) | Duplicated

  function Locate(es: seq<Entry>, tag: Tag): (r: Slot)
    ensures r.At? ==> r.index < |es| && es[r.index].tag == tag
  {
    if es == [] then Absent
    else
      match Locate(es[1..], tag)
      case Absent => if es[0].tag == tag then At(0) else Absent
      case At(k) => if es[0].tag == tag then Duplicated else At(k + 1)
      case Duplicated => Duplicated
  }

  /** A record of one entry holds that entry's tag, once, and no other. */
  lemma LocateSingle(e: Entry, tag: Tag)
    ensures Locate([e], tag) == if e.tag == tag then At(0) else Absent
  {
    assert [e][1..] == [];
  }

  /** The value a record holds under a tag that occurs once. */
  function Get(es: seq<Entry>, tag: Tag): (r: Option<Value>)
    ensures r.Some? ==> Entry(tag, r.value) in es
  {
    match Locate(es, tag)
    case At(k) => Some(es[k].value)
    case _ => None
  }

  lemma {:induction false} LocateEmitAbsent(fs: seq<FieldSpec>, tag: Tag)
    requires forall j :: 0 <= j < |fs| && fs[j].tag == tag ==> fs[j].skip
    ensures Locate(Emit(fs), tag) == Absent
  {
    if fs != [] {
      LocateEmitAbsent(fs[1..], tag);
      var es := Emit(fs);
      if fs[0].skip {
        assert es == Emit(fs[1..]);
      } else {
        assert es[0].tag != tag;
        assert es[1..] == Emit(fs[1..]);
      }
    }
  }

  /** The omission rule as seen by a reader: a field whose tag no other emitted field
      shares is found under its tag exactly when it is not skipped, with its value. */
  lemma {:induction false} LocateEmit(fs: seq<FieldSpec>, i: nat)
    requires i < |fs| && Unique(fs, i)
    ensures var r := Locate(Emit(fs), fs[i].tag);
            if fs[i].skip then r.Absent? else r.At? && Emit(fs)[r.index].value == fs[i].value
  {
    var t := fs[i].tag;
    var rest := fs[1..];
    if i == 0 {
      LocateEmitAbsent(rest, t);
      var es := Emit(fs);
      if fs[0].skip {
        assert es == Emit(rest);
      } else {
        assert es[0] == Entry(t, fs[0].value);
        assert es[1..] == Emit(rest);
      }
    } else {
      assert Unique(rest, i - 1) by {
        forall j | 0 <= j < |rest| && j != i - 1 && rest[j].tag == rest[i - 1].tag
          ensures rest[j].skip
        {
          assert rest[j] == fs[j + 1];
        }
      }
      LocateEmit(rest, i - 1);
      var es := Emit(fs);
      if fs[0].skip {
        assert es == Emit(rest);
      } else {
        assert es[0].tag != t;
        assert es[1..] == Emit(rest);
      }
    }
  }

  /** A field whose tag no other field carries is unique, whatever is skipped. */
  lemma UniqueByTags(fs: seq<FieldSpec>, ts: seq<Tag>, i: nat)
    requires i < |fs| && Tags(fs) == ts
    requires forall j :: 0 <= j < |ts| && j != i ==> ts[j] != ts[i]
    ensures Unique(fs, i)
  {
    forall j | 0 <= j < |fs| && j != i
      ensures fs[j].tag != fs[i].tag
    {
      assert Tags(fs)[j] == fs[j].tag && Tags(fs)[i] == fs[i].tag;
    }
  }

  lemma DistinctUnique(fs: seq<FieldSpec>, i: nat)
    requires i < |fs| && Distinct(Tags(fs))
    ensures Unique(fs, i)
  {
    forall j | 0 <= j < |fs| && j != i
      ensures fs[j].tag != fs[i].tag
    {
      if j < i {
        assert Tags(fs)[j] != Tags(fs)[i];
      } else {
        assert Tags(fs)[i] != Tags(fs)[j];
      }
    }
  }

  /** With distinct tags, reading a tag back from the record gives the field's value
      when it was emitted and nothing when it was skipped. */
  lemma GetEmit(fs: seq<FieldSpec>, i: nat)
    requires i < |fs| && Distinct(Tags(fs))
    ensures Get(Emit(fs), fs[i].tag) == if fs[i].skip then None else Some(fs[i].value)
  {
    DistinctUnique(fs, i);
    LocateEmit(fs, i);
  }

  // Decoding of primitive values.

  function AsU8(v: Value): Option<u8>
  {
    if v.UInt? && v.n < U8_LIMIT then Some(v.n) else None
  }

  function AsU32(v: Value): Option<u32>
  {
    if v.UInt? && v.n < U32_LIMIT then Some(v.n) else None
  }

  function AsU64(v: Value): Option<u64>
  {
    if v.UInt? && v.n < U64_LIMIT then Some(v.n) else None
  }

  function AsBool(v: Value): Option<bool>
  {
    if v.Bool? then Some(v.b) else None
  }

  function AsText(v: Value): Option<string>
  {
    if v.Text? then Some(v.text) else None
  }

  function AsBytes(v: Value): Option<seq<byte>>
  {
    if v.Bytes? then Some(v.bytes) else None
  }

  function AsBytes32(v: Value): Option<Bytes32>
  {
    if v.Bytes? && |v.bytes| == 32 then Some(v.bytes) else None
  }

  function AsBytes64(v: Value): Option<Bytes64>
  {
    if v.Bytes? && |v.bytes| == 64 then Some(v.bytes) else None
  }

  /** The elements of an array, each decoded, in order. */
  function AsArrayOf<T>(v: Value, decode: Value -> Option<T>): Option<seq<T>>
  {
    if !v.Array? then None else DecodeEach(v.items, decode)
  }

  function DecodeEach<T>(items: seq<Value>, decode: Value -> Option<T>): (r: Option<seq<T>>)
    ensures r.Some? ==> |r.value| == |items|
    ensures r.Some? ==> forall i :: 0 <= i < |items| ==> decode(items[i]) == Some(r.value[i])
  {
    if items == [] then Some([])
    else
      var x :- decode(items[0]);
      var xs :- DecodeEach(items[1..], decode);
      Some([x] + xs)
  }

  /** All the results, when every one is present; nothing as soon as one is missing. */
  function Collect<T>(rs: seq<Option<T>>): (r: Option<seq<T>>)
    ensures r.Some? <==> forall i :: 0 <= i < |rs| ==> rs[i].Some?
    ensures r.Some? ==> |r.value| == |rs| && forall i :: 0 <= i < |rs| ==> rs[i] == Some(r.value[i])
  {
    if rs == [] then Some([])
    else
      var x :- rs[0];
      var xs :- Collect(rs[1..]);
      Some([x] + xs)
  }

  function EncodeEach<T>(xs: seq<T>, encode: T -> Value): (items: seq<Value>)
  {
    seq(|xs|, i requires 0 <= i < |xs| => encode(xs[i]))
  }

  /** Encoding each element and decoding each item gives the elements back, in order. */
  lemma {:induction false} DecodeEncodeEach<T>(xs: seq<T>, encode: T -> Value, decode: Value -> Option<T>)
    requires forall i :: 0 <= i < |xs| ==> decode(encode(xs[i])) == Some(xs[i])
    ensures DecodeEach(EncodeEach(xs, encode), decode) == Some(xs)
  {
    if xs != [] {
      assert EncodeEach(xs, encode)[1..] == EncodeEach(xs[1..], encode);
      DecodeEncodeEach(xs[1..], encode, decode);
      assert [xs[0]] + xs[1..] == xs;
    }
  }

  /** A map's values encoded one by one, under the same keys. */
  function EncodeMap<K, T>(m: map<K, T>, encode: T -> Value): (r: map<K, Value>)
    ensures r.Keys == m.Keys
  {
    map k | k in m :: encode(m[k])
  }

  /** A map's values decoded one by one; nothing as soon as one does not decode. */
  function DecodeMap<K, T>(m: map<K, Value>, decode: Value -> Option<T>): (r: Option<map<K, T>>)
    ensures r.Some? <==> forall k :: k in m ==> decode(m[k]).Some?
    ensures r.Some? ==> r.value.Keys == m.Keys && forall k :: k in m ==> decode(m[k]) == Some(r.value[k])
  {
    if forall k :: k in m ==> decode(m[k]).Some? then Some(map k | k in m :: decode(m[k]).value) else None
  }

  /** Encoding each value of a map and decoding it again gives the map back. */
  lemma DecodeEncodeMap<K, T>(m: map<K, T>, encode: T -> Value, decode: Value -> Option<T>)
    requires forall k :: k in m ==> decode(encode(m[k])) == Some(m[k])
    ensures DecodeMap(EncodeMap(m, encode), decode) == Some(m)
  {
    var r := DecodeMap(EncodeMap(m, encode), decode);
    assert r.Some?;
    assert r.value == m;
  }

  // Decoding of fields.

  /** A field declared `default`: absent gives the default, a repeated tag is refused. */
  function OptionalField<T>(es: seq<Entry>, tag: Tag, default: T, decode: Value -> Option<T>): Option<T>
  {
    match Locate(es, tag)
    case Absent => Some(default)
    case Duplicated => None
    case At(k) => decode(es[k].value)
  }

  /** A field without `default`: absent is refused (`missing_field`). */
  function RequiredField<T>(es: seq<Entry>, tag: Tag, decode: Value -> Option<T>): Option<T>
  {
    match Locate(es, tag)
    case At(k) => decode(es[k].value)
    case _ => None
  }

  /** A field that is skipped when default and decoded with default reads back as
      the value it was written from, whether or not it was emitted. */
  lemma OptionalFieldOfEmit<T>(fs: seq<FieldSpec>, i: nat, x: T, default: T, decode: Value -> Option<T>)
    requires i < |fs| && Unique(fs, i)
    requires fs[i].skip == (x == default)
    requires decode(fs[i].value) == Some(x)
    ensures OptionalField(Emit(fs), fs[i].tag, default, decode) == Some(x)
  {
    LocateEmit(fs, i);
  }

  /** A field that is always emitted reads back as the value it was written from. */
  lemma RequiredFieldOfEmit<T>(fs: seq<FieldSpec>, i: nat, x: T, decode: Value -> Option<T>)
    requires i < |fs| && Unique(fs, i) && !fs[i].skip
    requires decode(fs[i].value) == Some(x)
    ensures RequiredField(Emit(fs), fs[i].tag, decode) == Some(x)
  {
    LocateEmit(fs, i);
  }

  /** With distinct tags, a field that is skipped when default and decoded with
      default reads back as the value it was written from. */
  lemma FieldRoundTrip<T>(fs: seq<FieldSpec>, i: nat, x: T, default: T, decode: Value -> Option<T>)
    requires i < |fs| && Distinct(Tags(fs))
    requires fs[i].skip == (x == default)
    requires decode(fs[i].value) == Some(x)
    ensures OptionalField(Emit(fs), fs[i].tag, default, decode) == Some(x)
  {
    DistinctUnique(fs, i);
    OptionalFieldOfEmit(fs, i, x, default, decode);
  }

  /** With distinct tags, a field that is always emitted reads back as its value. */
  lemma RequiredRoundTrip<T>(fs: seq<FieldSpec>, i: nat, x: T, decode: Value -> Option<T>)
    requires i < |fs| && Distinct(Tags(fs)) && !fs[i].skip
    requires decode(fs[i].value) == Some(x)
    ensures RequiredField(Emit(fs), fs[i].tag, decode) == Some(x)
  {
    DistinctUnique(fs, i);
    RequiredFieldOfEmit(fs, i, x, decode);
  }

  /** A field that is always written reads back as its value even where the decoder
      would default an absent tag (an `Option` field without `skip_serializing_if`). */
  lemma EmittedRoundTrip<T>(fs: seq<FieldSpec>, i: nat, x: T, default: T, decode: Value -> Option<T>)
    requires i < |fs| && Distinct(Tags(fs)) && !fs[i].skip
    requires decode(fs[i].value) == Some(x)
    ensures OptionalField(Emit(fs), fs[i].tag, default, decode) == Some(x)
  {
    DistinctUnique(fs, i);
    LocateEmit(fs, i);
  }

  /** Field tags of a record that do not occur among a second record's tags are
      unknown to the second record's decoder, so two records flattened into one
      keep their entries apart. */
  lemma {:induction false} LocateAppendAbsent(a: seq<Entry>, b: seq<Entry>, tag: Tag)
    requires Locate(b, tag) == Absent
    ensures Locate(a + b, tag) == Locate(a, tag)
  {
    if a == [] {
      assert a + b == b;
    } else {
      assert (a + b)[1..] == a[1..] + b;
      LocateAppendAbsent(a[1..], b, tag);
    }
  }

  lemma {:induction false} LocateShift(a: seq<Entry>, b: seq<Entry>, tag: Tag)
    requires Locate(a, tag) == Absent
    ensures Locate(a + b, tag) == match Locate(b, tag)
                                 case At(k) => At(|a| + k)
                                 case other => other
  {
    if a == [] {
      assert a + b == b;
    } else {
      assert a[0].tag != tag && Locate(a[1..], tag) == Absent;
      assert (a + b)[0] == a[0];
      assert (a + b)[1..] == a[1..] + b;
      LocateShift(a[1..], b, tag);
    }
  }

  /** A tag that is not among the fields' tags is never emitted. */
  lemma LocateEmitForeign(fs: seq<FieldSpec>, tag: Tag)
    requires tag !in Tags(fs)
    ensures Locate(Emit(fs), tag) == Absent
  {
    forall j | 0 <= j < |fs| ensures fs[j].tag != tag {
      assert Tags(fs)[j] == fs[j].tag;
    }
    LocateEmitAbsent(fs, tag);
  }

  /** Every tag of an emitted entry is one of the fields' tags. */
  lemma EmitTags(fs: seq<FieldSpec>)
    ensures forall e :: e in Emit(fs) ==> e.tag in Tags(fs)
  {
    forall e | e in Emit(fs) ensures e.tag in Tags(fs) {
      var k :| 0 <= k < |Emit(fs)| && Emit(fs)[k] == e;
      EmitSound(fs, k);
      var j :| 0 <= j < |fs| && !fs[j].skip && Emit(fs)[k] == Entry(fs[j].tag, fs[j].value);
      assert Tags(fs)[j] == e.tag;
    }
  }

  // Flattening.

  /** The entries a flattened part claims: those whose tag is one of its fields',
      in order. serde hands a `#[serde(flatten)]` struct exactly these. */
  function Claimed(es: seq<Entry>, tags: seq<Tag>): (r: seq<Entry>)
    ensures forall e :: e in r ==> e in es && e.tag in tags
  {
    if es == [] then []
    else (if es[0].tag in tags then [es[0]] else []) + Claimed(es[1..], tags)
  }

  /** The entries left over once a part has claimed its fields, in order. */
  function Unclaimed(es: seq<Entry>, tags: seq<Tag>): (r: seq<Entry>)
    ensures forall e :: e in r ==> e in es && e.tag !in tags
  {
    if es == [] then []
    else (if es[0].tag in tags then [] else [es[0]]) + Unclaimed(es[1..], tags)
  }

  lemma {:induction false} ClaimedAppend(a: seq<Entry>, b: seq<Entry>, tags: seq<Tag>)
    ensures Claimed(a + b, tags) == Claimed(a, tags) + Claimed(b, tags)
    ensures Unclaimed(a + b, tags) == Unclaimed(a, tags) + Unclaimed(b, tags)
  {
    ClaimedAppendLeft(a, b, tags);
    UnclaimedAppendLeft(a, b, tags);
  }

  lemma {:induction false} ClaimedAppendLeft(a: seq<Entry>, b: seq<Entry>, tags: seq<Tag>)
    ensures Claimed(a + b, tags) == Claimed(a, tags) + Claimed(b, tags)
  {
    if a == [] {
      assert a + b == b;
    } else {
      assert (a + b)[1..] == a[1..] + b;
      ClaimedAppendLeft(a[1..], b, tags);
    }
  }

  lemma {:induction false} UnclaimedAppendLeft(a: seq<Entry>, b: seq<Entry>, tags: seq<Tag>)
    ensures Unclaimed(a + b, tags) == Unclaimed(a, tags) + Unclaimed(b, tags)
  {
    if a == [] {
      assert a + b == b;
    } else {
      assert (a + b)[1..] == a[1..] + b;
      UnclaimedAppendLeft(a[1..], b, tags);
    }
  }

  /** A part claims every entry of a record whose tags are all its own. */
  lemma {:induction false} ClaimedAll(es: seq<Entry>, tags: seq<Tag>)
    requires forall e :: e in es ==> e.tag in tags
    ensures Claimed(es, tags) == es
    ensures Unclaimed(es, tags) == []
  {
    if es != [] {
      assert es[0] in es;
      ClaimedAll(es[1..], tags);
    }
  }

  /** A part claims nothing of a record none of whose tags is its own. */
  lemma {:induction false} ClaimedNone(es: seq<Entry>, tags: seq<Tag>)
    requires forall e :: e in es ==> e.tag !in tags
    ensures Claimed(es, tags) == []
    ensures Unclaimed(es, tags) == es
  {
    if es != [] {
      assert es[0] in es;
      ClaimedNone(es[1..], tags);
    }
  }

  /** A part claims nothing of a record whose tags all lie outside the part's. */
  lemma ClaimedNoneDisjoint(es: seq<Entry>, own: seq<Tag>, tags: seq<Tag>)
    requires forall e :: e in es ==> e.tag in own
    requires Disjoint(own, tags)
    ensures Claimed(es, tags) == []
    ensures Unclaimed(es, tags) == es
  {
    ClaimedNone(es, tags);
  }

  /** What a record holds under a tag, as the derived decoder sees it. */
  datatype Lookup = Missing | Found(value: Value) | Repeated

  function Find(es: seq<Entry>, tag: Tag): (r: Lookup)
    ensures r.Found? ==> Get(es, tag) == Some(r.value)
  {
    match Locate(es, tag)
    case Absent => Missing
    case At(k) => Found(es[k].value)
    case Duplicated => Repeated
  }

  lemma FindCons(e: Entry, rest: seq<Entry>, tag: Tag)
    ensures Find([e] + rest, tag) ==
              if e.tag != tag then Find(rest, tag)
              else if Find(rest, tag).Missing? then Found(e.value)
              else Repeated
  {
    var es := [e] + rest;
    assert es[1..] == rest;
    match Locate(rest, tag)
    case At(k) => assert es[k + 1] == rest[k];
    case _ =>
  }

  /** `#[serde(tag = ...)]`: the tag entry written before a body that does not use
      that tag is found once, and is the only entry the variant's decoder does not see. */
  lemma TaggedBody(tag: Tag, name: string, body: seq<Entry>)
    requires forall e :: e in body ==> e.tag != tag
    ensures Find([Entry(tag, Text(name))] + body, tag) == Found(Text(name))
    ensures Unclaimed([Entry(tag, Text(name))] + body, [tag]) == body
  {
    var e := Entry(tag, Text(name));
    ClaimedNone(body, [tag]);
    FindClaimed(body, [tag], tag);
    assert Claimed(body, [tag]) == [];
    FindCons(e, body, tag);
    ClaimedAppend([e], body, [tag]);
    assert Unclaimed([e], [tag]) == [] by {
      assert [e][1..] == [];
    }
  }

  /** Two records that hold the same under a tag decode that field alike. */
  lemma FieldsOfFind<T>(a: seq<Entry>, b: seq<Entry>, tag: Tag, default: T, decode: Value -> Option<T>)
    requires Find(a, tag) == Find(b, tag)
    ensures OptionalField(a, tag, default, decode) == OptionalField(b, tag, default, decode)
    ensures RequiredField(a, tag, decode) == RequiredField(b, tag, decode)
  {
  }

  /** Two fields under one tag: the tag is missing when both are skipped, holds the
      one that is written when only one is, and is repeated when both are. */
  lemma SharedTagPair(f: FieldSpec, g: FieldSpec, tag: Tag)
    requires f.tag == tag && g.tag == tag
    ensures Find(Head(f) + Head(g), tag) ==
              if f.skip && g.skip then Missing
              else if g.skip then Found(f.value)
              else if f.skip then Found(g.value)
              else Repeated
  {
    if !f.skip && !g.skip {
      assert Head(f) + Head(g) == [Entry(tag, f.value), Entry(tag, g.value)];
      assert [Entry(tag, f.value), Entry(tag, g.value)][1..] == [Entry(tag, g.value)];
      LocateSingle(Entry(tag, g.value), tag);
    } else if !f.skip {
      assert Head(f) + Head(g) == [Entry(tag, f.value)];
      LocateSingle(Entry(tag, f.value), tag);
    } else if !g.skip {
      assert Head(f) + Head(g) == [Entry(tag, g.value)];
      LocateSingle(Entry(tag, g.value), tag);
    } else {
      assert Head(f) + Head(g) == [];
    }
  }

  /** A part sees what the whole record holds under each of its own tags. */
  lemma {:induction false} FindClaimed(es: seq<Entry>, tags: seq<Tag>, tag: Tag)
    requires tag in tags
    ensures Find(Claimed(es, tags), tag) == Find(es, tag)
  {
    if es != [] {
      FindClaimed(es[1..], tags, tag);
      FindCons(es[0], es[1..], tag);
      assert es == [es[0]] + es[1..];
      if es[0].tag in tags {
        assert Claimed(es, tags) == [es[0]] + Claimed(es[1..], tags);
        FindCons(es[0], Claimed(es[1..], tags), tag);
      } else {
        assert Claimed(es, tags) == Claimed(es[1..], tags);
      }
    }
  }

  /** What is left over holds what the whole record holds under every other tag. */
  lemma {:induction false} FindUnclaimed(es: seq<Entry>, tags: seq<Tag>, tag: Tag)
    requires tag !in tags
    ensures Find(Unclaimed(es, tags), tag) == Find(es, tag)
  {
    if es != [] {
      FindUnclaimed(es[1..], tags, tag);
      FindCons(es[0], es[1..], tag);
      assert es == [es[0]] + es[1..];
      if es[0].tag !in tags {
        assert Unclaimed(es, tags) == [es[0]] + Unclaimed(es[1..], tags);
        FindCons(es[0], Unclaimed(es[1..], tags), tag);
      } else {
        assert Unclaimed(es, tags) == Unclaimed(es[1..], tags);
      }
    }
  }

  // Values shared by several records.

  /** `Option<T>` where it is not skipped: `None` is nil, `Some(x)` is x itself. */
  function OptionValue<T>(o: Option<T>, encode: T -> Value): Value
  {
    if o.None? then Nil else encode(o.value)
  }

  function AsOption<T>(v: Value, decode: Value -> Option<T>): (r: Option<Option<T>>)
  {
    if v.Nil? then Some(None)
    else match decode(v)
      case None => None
      case Some(x) => Some(Some(x))
  }

  lemma AsOptionValue<T>(o: Option<T>, encode: T -> Value, decode: Value -> Option<T>)
    requires o.Some? ==> !encode(o.value).Nil? && decode(encode(o.value)) == Some(o.value)
    ensures AsOption(OptionValue(o, encode), decode) == Some(o)
  {
  }

  /** An address is written as its 32 bytes. */
  function AddressValue(a: AddressCodec.Address): Value
  {
    Bytes(a.bytes)
  }

  function AsAddress(v: Value): (r: Option<AddressCodec.Address>)
    ensures r.Some? ==> AddressValue(r.value) == v
  {
    if v.Bytes? && |v.bytes| == 32 then Some(AddressCodec.Address(v.bytes)) else None
  }

  function BytesList(xs: seq<seq<byte>>): Value
  {
    Array(seq(|xs|, i requires 0 <= i < |xs| => Bytes(xs[i])))
  }

  function AsBytesList(v: Value): Option<seq<seq<byte>>>
  {
    AsArrayOf(v, AsBytes)
  }

  lemma BytesListRoundTrip(xs: seq<seq<byte>>)
    ensures AsBytesList(BytesList(xs)) == Some(xs)
  {
    assert BytesList(xs).items == EncodeEach(xs, x => Bytes(x));
    DecodeEncodeEach(xs, x => Bytes(x), AsBytes);
  }

  function TextValue(s: string): Value
  {
    Text(s)
  }

  function TextList(xs: seq<string>): Value
  {
    Array(EncodeEach(xs, TextValue))
  }

  function AsTextList(v: Value): Option<seq<string>>
  {
    AsArrayOf(v, AsText)
  }

  lemma TextListRoundTrip(xs: seq<string>)
    ensures AsTextList(TextList(xs)) == Some(xs)
  {
    DecodeEncodeEach(xs, TextValue, AsText);
  }

  function AddressList(xs: seq<AddressCodec.Address>): Value
  {
    Array(EncodeEach(xs, AddressValue))
  }

  function AsAddressList(v: Value): Option<seq<AddressCodec.Address>>
  {
    AsArrayOf(v, AsAddress)
  }

  lemma AddressListRoundTrip(xs: seq<AddressCodec.Address>)
    ensures AsAddressList(AddressList(xs)) == Some(xs)
  {
    DecodeEncodeEach(xs, AddressValue, AsAddress);
  }

  function UIntList(xs: seq<u64>): Value
  {
    Array(EncodeEach(xs, (n: u64) => UInt(n)))
  }

  function AsUIntList(v: Value): Option<seq<u64>>
  {
    AsArrayOf(v, AsU64)
  }

  lemma UIntListRoundTrip(xs: seq<u64>)
    ensures AsUIntList(UIntList(xs)) == Some(xs)
  {
    DecodeEncodeEach(xs, (n: u64) => UInt(n), AsU64);
  }
}
