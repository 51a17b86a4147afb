/**
  Signature containers (src/types/signature.rs): a single Ed25519 signature, the
  (key, optional signature) pairs of a multisignature, and the logic signature that
  delegates signing to a program.

  Ed25519 keys and signatures are opaque byte strings here: 32 bytes for a key,
  64 for a signature.
 */
module Signatures {
  import opened Wrappers
  import opened Basics
  import opened Schema
  import Util

  /** `Signature`, serialised transparently as its 64 bytes. */
  type Signature = Bytes64

  /** `Signature::default()`: the signature of 64 zero bytes. */
  const DefaultSignature: Signature := Zero64

  /** The default signature is the zero signature of `is_zero`. */
  lemma DefaultSignatureIsZero()
    ensures Util.IsZero(DefaultSignature)
    ensures forall i :: 0 <= i < 64 ==> DefaultSignature[i] == 0
  {
    Util.IsZeroIffAllBytesZero(DefaultSignature);
  }

  function SignatureValue(s: Signature): Value
  {
    Bytes(s)
  }

  function AsSignature(v: Value): Option<Signature>
  {
    AsBytes64(v)
  }

  /** A public key of a multisignature with the signature made with it, if any. */
  datatype MultisigSubsig = MultisigSubsig(key: PublicKey, sig: Option<Signature>)

  function SubsigSpecs(s: MultisigSubsig): seq<FieldSpec>
  {
    [ OmitIfDefault("pk", s.key, DefaultPublicKey, Bytes(s.key)),
      OmitIfDefault("s", s.sig, None, OptionValue(s.sig, SignatureValue)) ]
  }

  function EncodeSubsig(s: MultisigSubsig): Value
  {
    Record(Emit(SubsigSpecs(s)))
  }

  function DecodeSubsig(v: Value): Option<MultisigSubsig>
  {
    if !v.Record? then None
    else
      var key :- OptionalField(v.entries, "pk", DefaultPublicKey, AsBytes32);
      var sig :- OptionalField(v.entries, "s", None, (w: Value) => AsOption(w, AsSignature));
      Some(MultisigSubsig(key, sig))
  }

  /** `pk` is written unless the key is the default key, `s` exactly when there is a signature. */
  lemma SubsigOmission(s: MultisigSubsig)
    ensures var es := Emit(SubsigSpecs(s));
            && Get(es, "pk") == (if s.key == DefaultPublicKey then None else Some(Bytes(s.key)))
            && Get(es, "s") == (if s.sig.None? then None else Some(Bytes(s.sig.value)))
  {
    var fs := SubsigSpecs(s);
    GetEmit(fs, 0);
    GetEmit(fs, 1);
  }

  lemma SubsigRoundTrip(s: MultisigSubsig)
    ensures DecodeSubsig(EncodeSubsig(s)) == Some(s)
  {
    var fs := SubsigSpecs(s);
    FieldRoundTrip(fs, 0, s.key, DefaultPublicKey, AsBytes32);
    FieldRoundTrip(fs, 1, s.sig, None, (w: Value) => AsOption(w, AsSignature));
  }

  /**
    The default key is the identity point, so an all-zero key is written out,
    and a subsignature without `pk` reads back with the default key.
   */
  lemma ZeroKeyWritten(s: MultisigSubsig, es: seq<Entry>)
    requires s.key == Zero32
    requires Locate(es, "pk") == Absent && Locate(es, "s") == Absent
    ensures Get(Emit(SubsigSpecs(s)), "pk") == Some(Bytes(Zero32))
    ensures DecodeSubsig(Record(es)) == Some(MultisigSubsig(DefaultPublicKey, None))
  {
    assert Zero32[0] != DefaultPublicKey[0];
    SubsigOmission(s);
  }

  /** A threshold multisignature over an ordered list of keys. */
  datatype MultisigSignature = MultisigSignature(version: u8, threshold: u8, subsigs: seq<MultisigSubsig>)

  /** The derived `Default`. */
  const DefaultMultisig: MultisigSignature := MultisigSignature(0, 0, [])

  function SubsigList(subsigs: seq<MultisigSubsig>): Value
  {
    Array(EncodeEach(subsigs, EncodeSubsig))
  }

  function MultisigSpecs(m: MultisigSignature): seq<FieldSpec>
  {
    [ OmitIfDefault("v", m.version, 0, UInt(m.version)),
      OmitIfDefault("thr", m.threshold, 0, UInt(m.threshold)),
      OmitIfDefault("subsig", m.subsigs, [], SubsigList(m.subsigs)) ]
  }

  function EncodeMultisig(m: MultisigSignature): Value
  {
    Record(Emit(MultisigSpecs(m)))
  }

  function DecodeMultisig(v: Value): Option<MultisigSignature>
  {
    if !v.Record? then None
    else
      var version :- OptionalField(v.entries, "v", 0, AsU8);
      var threshold :- OptionalField(v.entries, "thr", 0, AsU8);
      var subsigs :- OptionalField(v.entries, "subsig", [], (w: Value) => AsArrayOf(w, DecodeSubsig));
      Some(MultisigSignature(version, threshold, subsigs))
  }

  /** `v`, `thr` and `subsig` are written exactly when they are not zero or empty. */
  lemma MultisigOmission(m: MultisigSignature)
    ensures var es := Emit(MultisigSpecs(m));
            && Get(es, "v") == (if m.version == 0 then None else Some(UInt(m.version)))
            && Get(es, "thr") == (if m.threshold == 0 then None else Some(UInt(m.threshold)))
            && Get(es, "subsig") == (if m.subsigs == [] then None else Some(SubsigList(m.subsigs)))
  {
    var fs := MultisigSpecs(m);
    GetEmit(fs, 0);
    GetEmit(fs, 1);
    GetEmit(fs, 2);
  }

  /** The default multisignature is written as an empty record. */
  lemma DefaultMultisigIsEmpty()
    ensures EncodeMultisig(DefaultMultisig) == Record([])
  {
    EmitAllSkipped(MultisigSpecs(DefaultMultisig));
  }

  /** The subsignatures are written one item each, in their order. */
  lemma SubsigOrder(subsigs: seq<MultisigSubsig>)
    ensures |SubsigList(subsigs).items| == |subsigs|
    ensures forall i :: 0 <= i < |subsigs| ==> DecodeSubsig(SubsigList(subsigs).items[i]) == Some(subsigs[i])
  {
    forall i | 0 <= i < |subsigs| ensures DecodeSubsig(SubsigList(subsigs).items[i]) == Some(subsigs[i]) {
      SubsigRoundTrip(subsigs[i]);
    }
  }

  lemma SubsigListRoundTrip(subsigs: seq<MultisigSubsig>)
    ensures AsArrayOf(SubsigList(subsigs), DecodeSubsig) == Some(subsigs)
  {
    forall i | 0 <= i < |subsigs| ensures DecodeSubsig(EncodeSubsig(subsigs[i])) == Some(subsigs[i]) {
      SubsigRoundTrip(subsigs[i]);
    }
    DecodeEncodeEach(subsigs, EncodeSubsig, DecodeSubsig);
  }

  lemma MultisigRoundTrip(m: MultisigSignature)
    ensures DecodeMultisig(EncodeMultisig(m)) == Some(m)
  {
    var fs := MultisigSpecs(m);
    FieldRoundTrip(fs, 0, m.version, 0, AsU8);
    FieldRoundTrip(fs, 1, m.threshold, 0, AsU8);
    SubsigListRoundTrip(m.subsigs);
    FieldRoundTrip(fs, 2, m.subsigs, [], (w: Value) => AsArrayOf(w, DecodeSubsig));
  }

  /** A logic signature: the program, the arguments it checks, and the single or
      multiple signature of an account that delegated to it. */
  datatype LogicSig = LogicSig(logic: seq<byte>, sig: Signature, msig: MultisigSignature, args: seq<seq<byte>>)

  /** Both `sig` and `msig` are declared under the tag "sig". */
  function LogicSigSpecs(l: LogicSig): seq<FieldSpec>
  {
    [ OmitIfDefault("l", l.logic, [], Bytes(l.logic)),
      OmitIfDefault("sig", l.sig, DefaultSignature, SignatureValue(l.sig)),
      OmitIfDefault("sig", l.msig, DefaultMultisig, EncodeMultisig(l.msig)),
      OmitIfDefault("arg", l.args, [], BytesList(l.args)) ]
  }

  function EncodeLogicSig(l: LogicSig): Value
  {
    Record(Emit(LogicSigSpecs(l)))
  }

  /** The tag "sig" names the first field declared with it, `sig`; `msig` is never
      read and keeps its default. */
  function DecodeLogicSig(v: Value): Option<LogicSig>
  {
    if !v.Record? then None
    else
      var logic :- OptionalField(v.entries, "l", [], AsBytes);
      var sig :- OptionalField(v.entries, "sig", DefaultSignature, AsSignature);
      var args :- OptionalField(v.entries, "arg", [], AsBytesList);
      Some(LogicSig(logic, sig, DefaultMultisig, args))
  }

  /** `l` and `arg` are written exactly when not empty; `arg` keeps the arguments' order. */
  lemma LogicSigOmission(l: LogicSig)
    ensures var es := Emit(LogicSigSpecs(l));
            && Get(es, "l") == (if l.logic == [] then None else Some(Bytes(l.logic)))
            && Get(es, "arg") == (if l.args == [] then None else Some(BytesList(l.args)))
  {
    var fs := LogicSigSpecs(l);
    LocateEmit(fs, 0);
    LocateEmit(fs, 3);
  }

  /** With both a signature and a multisignature, the record carries two entries
      under "sig", the signature first. */
  lemma LogicSigSharedTag(l: LogicSig)
    requires l.sig != DefaultSignature && l.msig != DefaultMultisig
    ensures var es := Emit(LogicSigSpecs(l));
            && Locate(es, "sig") == Duplicated
            && Entry("sig", SignatureValue(l.sig)) in es && Entry("sig", EncodeMultisig(l.msig)) in es
  {
    var fs := LogicSigSpecs(l);
    var tail := Emit(fs[2..]);
    assert fs == fs[..2] + fs[2..];
    EmitAppend(fs[..2], fs[2..]);
    LocateEmit(fs[2..], 0);
    var k := Locate(tail, "sig").index;
    var front := Emit(fs[..2]);
    assert front == Head(fs[0]) + [Entry("sig", SignatureValue(l.sig))] by {
      assert fs[..2][1..] == [fs[1]];
      assert Emit([fs[1]]) == Head(fs[1]) + Emit([]);
    }
    assert front[|front| - 1].tag == "sig";
    LocateSecond(front, tail, "sig");
    assert Entry("sig", SignatureValue(l.sig)) in Emit(fs);
    assert Emit(fs)[|front| + k] == tail[k];
  }

  /** With only one of a signature and a multisignature, "sig" holds that one; with
      neither, there is no "sig". */
  lemma LogicSigSingleSig(l: LogicSig)
    requires l.sig == DefaultSignature || l.msig == DefaultMultisig
    ensures var es := Emit(LogicSigSpecs(l));
            && (l.sig != DefaultSignature ==> Get(es, "sig") == Some(SignatureValue(l.sig)))
            && (l.msig != DefaultMultisig ==> Get(es, "sig") == Some(EncodeMultisig(l.msig)))
            && (l.sig == DefaultSignature && l.msig == DefaultMultisig ==> Get(es, "sig") == None)
  {
    var fs := LogicSigSpecs(l);
    assert Unique(fs, 1) || Unique(fs, 2);
    if l.msig == DefaultMultisig {
      LocateEmit(fs, 1);
    } else {
      LocateEmit(fs, 2);
    }
  }

  /** A record with a tag found in its first part and again in its second has that
      tag twice. */
  lemma {:induction false} LocateSecond(a: seq<Entry>, b: seq<Entry>, tag: Tag)
    requires exists i :: 0 <= i < |a| && a[i].tag == tag
    requires !Locate(b, tag).Absent?
    ensures Locate(a + b, tag) == Duplicated
  {
    assert (a + b)[1..] == a[1..] + b;
    if a[0].tag == tag {
      LocateNotAbsent(a[1..], b, tag);
    } else {
      LocateSecond(a[1..], b, tag);
    }
  }

  lemma {:induction false} LocateNotAbsent(a: seq<Entry>, b: seq<Entry>, tag: Tag)
    requires !Locate(b, tag).Absent?
    ensures !Locate(a + b, tag).Absent?
  {
    if a == [] {
      assert a + b == b;
    } else {
      assert (a + b)[1..] == a[1..] + b;
      LocateNotAbsent(a[1..], b, tag);
    }
  }

  /** A logic signature survives a round trip exactly when it carries no multisignature
      behind the shared tag. */
  lemma LogicSigRoundTrip(l: LogicSig)
    requires l.msig == DefaultMultisig
    ensures DecodeLogicSig(EncodeLogicSig(l)) == Some(l)
  {
    var fs := LogicSigSpecs(l);
    OptionalFieldOfEmit(fs, 0, l.logic, [], AsBytes);
    OptionalFieldOfEmit(fs, 1, l.sig, DefaultSignature, AsSignature);
    BytesListRoundTrip(l.args);
    OptionalFieldOfEmit(fs, 3, l.args, [], AsBytesList);
  }

  /** A logic signature with a multisignature does not decode: "sig" then holds the
      multisignature record, or holds two entries. */
  lemma LogicSigMultisigLost(l: LogicSig)
    requires l.msig != DefaultMultisig
    ensures DecodeLogicSig(EncodeLogicSig(l)) == None
  {
    var es := Emit(LogicSigSpecs(l));
    if l.sig != DefaultSignature {
      LogicSigSharedTag(l);
    } else {
      LogicSigSingleSig(l);
      var k := Locate(es, "sig").index;
      assert es[k].value == EncodeMultisig(l.msig);
    }
  }
}
