/** The recursive walkers `encrypt_values` and `decrypt_values` of
    django_encrypted_json/utils.py, and the `skip_keys` variant that
    fields.py calls.

    The walkers are parameterised, as in the source, by the encrypter and
    the decrypter. The source calls the module-level `json.dumps` and
    `json.loads` at the leaves; here that codec is a parameter too, so that
    its behaviour can be stated as a hypothesis.
 */
module Walker {
  import opened Values
  import opened KeyRing

  /** `json.dumps` on a scalar, giving the bytes that are encrypted, and
      `json.loads` on a byte string, `None` standing for the ValueError it
      raises on text that is not JSON. */
  datatype Codec = Codec(dumps: Value -> Bytes, loads: Bytes -> Option<Value>)

  /** `json.loads(json.dumps(v))` on a scalar gives `v` back, except that
      a byte string comes back as text: Python 2's `json` decodes every
      string to `unicode`. Stated for ASCII byte strings, where the UTF-8
      decoding `json` applies agrees with latin-1. */
  ghost predicate ScalarRoundTrip(codec: Codec) {
    forall v :: IsScalar(v) && AsciiStrings(v) ==> codec.loads(codec.dumps(v)) == Some(Stored(v))
  }

  /** The exceptions that escape `decrypt_values`: both come from the
      latin-1 retry, which runs inside the TypeError handler and so is not
      covered by its sibling handlers. */
  datatype DecryptError = UnicodeEncodeError | TokenRejected

  // ---------------------------------------------------------------------
  // Encryption

  /** The token stored in place of a scalar leaf. */
  function Token(leaf: Value, enc: Bytes -> Bytes, codec: Codec): Value {
    Binary(enc(codec.dumps(leaf)))
  }

  function SealAll(leaves: seq<Value>, enc: Bytes -> Bytes, codec: Codec): seq<Value> {
    seq(|leaves|, i requires 0 <= i < |leaves| => Token(leaves[i], enc, codec))
  }

  lemma {:induction false} SealConcat(ss: seq<seq<Value>>, enc: Bytes -> Bytes, codec: Codec)
    ensures SealAll(Concat(ss), enc, codec)
         == Concat(seq(|ss|, i requires 0 <= i < |ss| => SealAll(ss[i], enc, codec)))
  {
    if |ss| > 0 {
      SealConcat(ss[1..], enc, codec);
      var mapped := seq(|ss|, i requires 0 <= i < |ss| => SealAll(ss[i], enc, codec));
      assert mapped[1..] == seq(|ss[1..]|, i requires 0 <= i < |ss[1..]| => SealAll(ss[1..][i], enc, codec));
      assert SealAll(ss[0] + Concat(ss[1..]), enc, codec)
          == SealAll(ss[0], enc, codec) + SealAll(Concat(ss[1..]), enc, codec);
    }
  }

  /** `encrypt_values(data, encrypter)`: lists, tuples and sets become
      lists, dicts keep their keys, and every scalar leaf (None included)
      becomes `encrypter(json.dumps(leaf))`. */
  function EncryptValues(data: Value, enc: Bytes -> Bytes, codec: Codec): (r: Value)
    ensures SameShape(data, r)
    ensures Canon(r) == r
    decreases data
  {
    match data
    case Seq(_, items) =>
      var out := seq(|items|, i requires 0 <= i < |items| => EncryptValues(items[i], enc, codec));
      assert Canon(Seq(ListKind, out)).items == out;
      Seq(ListKind, out)
    case Obj(fields) =>
      var out := seq(|fields|, i requires 0 <= i < |fields| =>
        Field(fields[i].key, EncryptValues(fields[i].val, enc, codec)));
      assert Keys(out) == Keys(fields);
      assert Canon(Obj(out)).fields == out;
      Obj(out)
    case _ => Token(data, enc, codec)
  }

  /** `out` holds, at every dict entry of `data` whose key is in `skip`
      (at any depth not already below such a key), exactly that entry. */
  ghost predicate CopiesSkipped(data: Value, out: Value, skip: seq<string>)
    decreases data
  {
    match data
    case Seq(_, items) =>
      && out.Seq? && |out.items| == |items|
      && forall i :: 0 <= i < |items| ==> CopiesSkipped(items[i], out.items[i], skip)
    case Obj(fields) =>
      && out.Obj? && |out.fields| == |fields|
      && forall i :: 0 <= i < |fields| ==>
           if fields[i].key in skip then out.fields[i] == fields[i]
           else CopiesSkipped(fields[i].val, out.fields[i].val, skip)
    case _ => true
  }

  /** `encrypt_values(data, skip_keys=skip)`: as `EncryptValues`, except
      that the value under a dict key listed in `skip`, at any level, is
      copied as it is. */
  function EncryptSkipping(data: Value, enc: Bytes -> Bytes, codec: Codec, skip: seq<string>): (r: Value)
    ensures SameShape(data, r)
    ensures CopiesSkipped(data, r, skip)
    ensures data.Obj? ==>
      && r.Obj? && |r.fields| == |data.fields|
      && forall i :: 0 <= i < |data.fields| && data.fields[i].key in skip ==>
           r.fields[i] == data.fields[i]
    decreases data
  {
    match data
    case Seq(_, items) =>
      Seq(ListKind, seq(|items|, i requires 0 <= i < |items| => EncryptSkipping(items[i], enc, codec, skip)))
    case Obj(fields) =>
      var out := seq(|fields|, i requires 0 <= i < |fields| =>
        Field(fields[i].key,
              if fields[i].key in skip then fields[i].val
              else EncryptSkipping(fields[i].val, enc, codec, skip)));
      assert Keys(out) == Keys(fields);
      assert forall i :: 0 <= i < |fields| && fields[i].key in skip ==> SameShape(fields[i].val, out[i].val) by {
        forall i | 0 <= i < |fields| && fields[i].key in skip ensures SameShape(fields[i].val, out[i].val) {
          SameShapeReflexive(fields[i].val);
        }
      }
      Obj(out)
    case _ => Token(data, enc, codec)
  }

  /** Every leaf not below a skipped key is replaced by the token of that
      leaf, in the same left-to-right position. */
  lemma {:induction false} EncryptSkippingLeafwise(data: Value, enc: Bytes -> Bytes, codec: Codec, skip: seq<string>)
    ensures Exposed(EncryptSkipping(data, enc, codec, skip), skip) == SealAll(Exposed(data, skip), enc, codec)
    decreases data
  {
    var r := EncryptSkipping(data, enc, codec, skip);
    match data
    case Seq(_, items) =>
      var parts := seq(|items|, i requires 0 <= i < |items| => Exposed(items[i], skip));
      forall i | 0 <= i < |items|
        ensures Exposed(r.items[i], skip) == SealAll(parts[i], enc, codec)
      {
        EncryptSkippingLeafwise(items[i], enc, codec, skip);
      }
      SealConcat(parts, enc, codec);
      assert seq(|r.items|, i requires 0 <= i < |r.items| => Exposed(r.items[i], skip))
          == seq(|parts|, i requires 0 <= i < |parts| => SealAll(parts[i], enc, codec));
    case Obj(fields) =>
      var parts := seq(|fields|, i requires 0 <= i < |fields| =>
        if fields[i].key in skip then [] else Exposed(fields[i].val, skip));
      forall i | 0 <= i < |fields|
        ensures (if r.fields[i].key in skip then [] else Exposed(r.fields[i].val, skip))
             == SealAll(parts[i], enc, codec)
      {
        if fields[i].key !in skip {
          EncryptSkippingLeafwise(fields[i].val, enc, codec, skip);
        }
      }
      SealConcat(parts, enc, codec);
      assert seq(|r.fields|, i requires 0 <= i < |r.fields| =>
               if r.fields[i].key in skip then [] else Exposed(r.fields[i].val, skip))
          == seq(|parts|, i requires 0 <= i < |parts| => SealAll(parts[i], enc, codec));
    case _ =>
  }

  /** With nothing to skip, the skipping walker is `encrypt_values`. */
  lemma {:induction false} NoSkipsIsEncryptValues(data: Value, enc: Bytes -> Bytes, codec: Codec)
    ensures EncryptSkipping(data, enc, codec, []) == EncryptValues(data, enc, codec)
    decreases data
  {
    match data
    case Seq(_, items) =>
      forall i | 0 <= i < |items|
        ensures EncryptSkipping(items[i], enc, codec, []) == EncryptValues(items[i], enc, codec)
      {
        NoSkipsIsEncryptValues(items[i], enc, codec);
      }
    case Obj(fields) =>
      forall i | 0 <= i < |fields|
        ensures EncryptSkipping(fields[i].val, enc, codec, []) == EncryptValues(fields[i].val, enc, codec)
      {
        NoSkipsIsEncryptValues(fields[i].val, enc, codec);
      }
    case _ =>
  }

  /** Every scalar leaf, None included, becomes `encrypter(dumps(leaf))`,
      so the output holds only tokens. */
  lemma EncryptValuesLeafwise(data: Value, enc: Bytes -> Bytes, codec: Codec)
    ensures Leaves(EncryptValues(data, enc, codec)) == SealAll(Leaves(data), enc, codec)
    ensures forall l :: l in Leaves(EncryptValues(data, enc, codec)) ==> l.Binary?
  {
    NoSkipsIsEncryptValues(data, enc, codec);
    EncryptSkippingLeafwise(data, enc, codec, []);
  }

  /** A subtree with a leaf that is not a byte string, and that is not
      below a skipped key, is changed by encryption. */
  lemma EncryptedSubtreeDiffers(v: Value, enc: Bytes -> Bytes, codec: Codec, skip: seq<string>, k: nat)
    requires k < |Exposed(v, skip)| && !Exposed(v, skip)[k].Binary?
    ensures EncryptSkipping(v, enc, codec, skip) != v
  {
    EncryptSkippingLeafwise(v, enc, codec, skip);
  }

  /** What a reader of the stored dict sees under one top-level key: the
      input value if the key is skipped, its encryption otherwise. */
  lemma SkippedKeyStoredAsIs(fields: seq<Field>, key: string, enc: Bytes -> Bytes, codec: Codec, skip: seq<string>)
    requires key in Keys(fields)
    ensures var stored := EncryptSkipping(Obj(fields), enc, codec, skip);
      && stored.Obj?
      && Lookup(stored.fields, key).Some?
      && (key in skip ==> Lookup(stored.fields, key) == Lookup(fields, key))
      && (key !in skip ==>
            Lookup(stored.fields, key) == Some(EncryptSkipping(Lookup(fields, key).value, enc, codec, skip)))
  {
    var stored := EncryptSkipping(Obj(fields), enc, codec, skip);
    var i := LookupFirst(fields, key);
    assert Keys(stored.fields) == Keys(fields);
    assert forall j :: 0 <= j < |fields| ==> stored.fields[j].key == Keys(fields)[j];
    LookupAt(stored.fields, key, i);
  }

  // ---------------------------------------------------------------------
  // Decryption

  /** The try/except block of one leaf: the decrypter raises TypeError for
      anything but a byte string; text is then retried as latin-1 bytes,
      and that retry is not guarded by the InvalidToken handler. */
  function Attempt(data: Value, dec: Bytes -> Unsealed): (r: Result<Value, DecryptError>)
    requires IsScalar(data)
    // a number, boolean or None makes the decrypter raise TypeError and is kept
    ensures !data.Binary? && !data.Text? ==> r == Ok(data)
    // a byte string that is a token becomes its plaintext, one that is not is kept
    ensures data.Binary? && dec(data.bytes).Plain? ==> r == Ok(Binary(dec(data.bytes).payload))
    ensures data.Binary? && dec(data.bytes).InvalidToken? ==> r == Ok(data)
    // text is retried as latin-1 bytes; the retry raises when a character
    // lies above U+00FF or when the bytes are no token
    ensures data.Text? && Latin1Encode(data.s).None? ==> r == Err(UnicodeEncodeError)
    ensures data.Text? && Latin1Encode(data.s).Some? && dec(Latin1Encode(data.s).value).InvalidToken? ==>
      r == Err(TokenRejected)
    ensures data.Text? && Latin1Encode(data.s).Some? && dec(Latin1Encode(data.s).value).Plain? ==>
      r == Ok(Binary(dec(Latin1Encode(data.s).value).payload))
    ensures r.Ok? ==> !r.value.Text?
  {
    match data
    case Binary(b) =>
      (match dec(b)
       case Plain(p) => Ok(Binary(p))
       case InvalidToken => Ok(data))
    case Text(s) =>
      (match Latin1Encode(s)
       case None => Err(UnicodeEncodeError)
       case Some(b) =>
         match dec(b)
         case Plain(p) => Ok(Binary(p))
         case InvalidToken => Err(TokenRejected))
    case _ => Ok(data)
  }

  /** `json.loads(value)`, or `value` itself when loads raises ValueError
      (not JSON) or TypeError (not a string). */
  function LoadsOrKeep(value: Value, codec: Codec): Value {
    match value
    case Binary(b) =>
      (match codec.loads(b)
       case Some(v) => v
       case None => value)
    case _ => value
  }

  /** `json.loads(b)` if it parses, else the bytes themselves. */
  function Parsed(b: Bytes, codec: Codec): Value {
    LoadsOrKeep(Binary(b), codec)
  }

  /** `decrypt_values` on a scalar leaf. */
  function DecryptLeaf(data: Value, dec: Bytes -> Unsealed, codec: Codec): (r: Result<Value, DecryptError>)
    requires IsScalar(data)
    // numbers, booleans and None pass through unchanged
    ensures (data.Null? || data.Bool? || data.Int?) ==> r == Ok(data)
    // a byte string that is a token decrypts and is parsed if it can be
    ensures data.Binary? && dec(data.bytes).Plain? ==> r == Ok(Parsed(dec(data.bytes).payload, codec))
    // a byte string that is no token is parsed if it can be, else kept
    ensures data.Binary? && dec(data.bytes).InvalidToken? ==> r == Ok(Parsed(data.bytes, codec))
    // text fails exactly when it is not latin-1 or its bytes are no token
    ensures data.Text? ==>
      (r.Err? <==> Latin1Encode(data.s).None? || dec(Latin1Encode(data.s).value).InvalidToken?)
    ensures data.Text? && r.Ok? ==> r == Ok(Parsed(dec(Latin1Encode(data.s).value).payload, codec))
    ensures r.Err? ==> data.Text?
  {
    match Attempt(data, dec)
    case Err(e) => Err(e)
    case Ok(value) => Ok(LoadsOrKeep(value, codec))
  }

  /** All results, in order, or the first error. */
  function Collect<T, E>(rs: seq<Result<T, E>>): (r: Result<seq<T>, E>)
    ensures r.Ok? <==> forall i :: 0 <= i < |rs| ==> rs[i].Ok?
    ensures r.Ok? ==> |r.value| == |rs| && forall i :: 0 <= i < |rs| ==> r.value[i] == rs[i].value
    ensures r.Err? ==>
      exists i :: 0 <= i < |rs| && rs[i] == Err(r.error) && forall j :: 0 <= j < i ==> rs[j].Ok?
  {
    if |rs| == 0 then Ok([])
    else match rs[0]
      case Err(e) => Err(e)
      case Ok(v) =>
        var rest := Collect(rs[1..]);
        assert forall i :: 1 <= i < |rs| ==> rs[i] == rs[1..][i - 1];
        match rest
        case Err(e) =>
          assert exists i :: 0 <= i < |rs| && rs[i] == Err(e) && forall j :: 0 <= j < i ==> rs[j].Ok? by {
            var i :| 0 <= i < |rs[1..]| && rs[1..][i] == Err(e) && forall j :: 0 <= j < i ==> rs[1..][j].Ok?;
            assert rs[i + 1] == Err(e);
          }
          Err(e)
        case Ok(vs) => Ok([v] + vs)
  }

  /** Decryption keeps the container skeleton: a sequence becomes a list of
      the same length, a dict keeps its keys in order, pairwise down; a
      leaf may become anything `json.loads` returns. */
  ghost predicate KeepsContainers(data: Value, out: Value)
    decreases data
  {
    match data
    case Seq(_, items) =>
      && out.Seq? && out.kind == ListKind && |out.items| == |items|
      && forall i :: 0 <= i < |items| ==> KeepsContainers(items[i], out.items[i])
    case Obj(fields) =>
      && out.Obj? && |out.fields| == |fields| && Keys(out.fields) == Keys(fields)
      && forall i :: 0 <= i < |fields| ==> KeepsContainers(fields[i].val, out.fields[i].val)
    case _ => true
  }

  /** `decrypt_values(data, decrypter)`; an exception escaping a leaf
      escapes the whole call. */
  function DecryptValues(data: Value, dec: Bytes -> Unsealed, codec: Codec): (r: Result<Value, DecryptError>)
    ensures r.Ok? ==> KeepsContainers(data, r.value)
    decreases data
  {
    match data
    case Seq(_, items) =>
      var rs := seq(|items|, i requires 0 <= i < |items| => DecryptValues(items[i], dec, codec));
      (match Collect(rs)
       case Err(e) => Err(e)
       case Ok(vs) => Ok(Seq(ListKind, vs)))
    case Obj(fields) =>
      var rs := seq(|fields|, i requires 0 <= i < |fields| => DecryptValues(fields[i].val, dec, codec));
      (match Collect(rs)
       case Err(e) => Err(e)
       case Ok(vs) =>
         var out := seq(|fields|, i requires 0 <= i < |fields| => Field(fields[i].key, vs[i]));
         assert Keys(out) == Keys(fields);
         Ok(Obj(out)))
    case _ => DecryptLeaf(data, dec, codec)
  }

  /** A leaf decrypts without an exception. */
  predicate LeafDecrypts(leaf: Value, dec: Bytes -> Unsealed, codec: Codec) {
    IsScalar(leaf) && DecryptLeaf(leaf, dec, codec).Ok?
  }

  lemma {:induction false} ExposedAreScalars(v: Value, skip: seq<string>)
    ensures forall l :: l in Exposed(v, skip) ==> IsScalar(l)
    decreases v
  {
    match v
    case Seq(_, items) =>
      var parts := seq(|items|, i requires 0 <= i < |items| => Exposed(items[i], skip));
      forall l | l in Exposed(v, skip) ensures IsScalar(l) {
        ConcatMember(parts, l);
        var i :| 0 <= i < |parts| && l in parts[i];
        ExposedAreScalars(items[i], skip);
      }
    case Obj(fields) =>
      var parts := seq(|fields|, i requires 0 <= i < |fields| =>
        if fields[i].key in skip then [] else Exposed(fields[i].val, skip));
      forall l | l in Exposed(v, skip) ensures IsScalar(l) {
        ConcatMember(parts, l);
        var i :| 0 <= i < |parts| && l in parts[i];
        ExposedAreScalars(fields[i].val, skip);
      }
    case _ =>
  }

  lemma AllOkIffAllLeavesDecrypt(rs: seq<Result<Value, DecryptError>>, parts: seq<seq<Value>>,
                                  dec: Bytes -> Unsealed, codec: Codec)
    requires |rs| == |parts|
    requires forall i :: 0 <= i < |rs| ==>
      (rs[i].Ok? <==> forall l :: l in parts[i] ==> LeafDecrypts(l, dec, codec))
    ensures Collect(rs).Ok? <==> forall l :: l in Concat(parts) ==> LeafDecrypts(l, dec, codec)
  {
  }

  /** `decrypt_values` raises exactly when some leaf raises. */
  lemma {:induction false} DecryptFailsExactlyOnBadLeaf(data: Value, dec: Bytes -> Unsealed, codec: Codec)
    ensures DecryptValues(data, dec, codec).Ok? <==>
      forall l :: l in Leaves(data) ==> LeafDecrypts(l, dec, codec)
    decreases data
  {
    match data
    case Seq(_, items) =>
      var parts := seq(|items|, i requires 0 <= i < |items| => Leaves(items[i]));
      var rs := seq(|items|, i requires 0 <= i < |items| => DecryptValues(items[i], dec, codec));
      forall i | 0 <= i < |items|
        ensures rs[i].Ok? <==> forall l :: l in parts[i] ==> LeafDecrypts(l, dec, codec)
      {
        DecryptFailsExactlyOnBadLeaf(items[i], dec, codec);
      }
      AllOkIffAllLeavesDecrypt(rs, parts, dec, codec);
      assert parts == seq(|items|, i requires 0 <= i < |items| => Exposed(items[i], []));
      assert Leaves(data) == Concat(parts);
    case Obj(fields) =>
      var parts := seq(|fields|, i requires 0 <= i < |fields| =>
        if fields[i].key in [] then [] else Leaves(fields[i].val));
      var rs := seq(|fields|, i requires 0 <= i < |fields| => DecryptValues(fields[i].val, dec, codec));
      forall i | 0 <= i < |fields|
        ensures rs[i].Ok? <==> forall l :: l in parts[i] ==> LeafDecrypts(l, dec, codec)
      {
        DecryptFailsExactlyOnBadLeaf(fields[i].val, dec, codec);
      }
      AllOkIffAllLeavesDecrypt(rs, parts, dec, codec);
      assert parts == seq(|fields|, i requires 0 <= i < |fields| =>
        if fields[i].key in [] then [] else Exposed(fields[i].val, []));
      assert Leaves(data) == Concat(parts);
    case _ =>
      assert Leaves(data) == [data];
      assert (forall l :: l in Leaves(data) ==> LeafDecrypts(l, dec, codec)) <==> LeafDecrypts(data, dec, codec);
      assert DecryptValues(data, dec, codec) == DecryptLeaf(data, dec, codec);
  }

  /** The subtrees of `out` at the positions of `data`'s leaves, left to
      right, where `out` keeps `data`'s containers. */
  function AtLeaves(data: Value, out: Value): seq<Value>
    decreases data
  {
    match data
    case Seq(_, items) =>
      if out.Seq? && |out.items| == |items| then
        Concat(seq(|items|, i requires 0 <= i < |items| => AtLeaves(items[i], out.items[i])))
      else []
    case Obj(fields) =>
      if out.Obj? && |out.fields| == |fields| then
        Concat(seq(|fields|, i requires 0 <= i < |fields| => AtLeaves(fields[i].val, out.fields[i].val)))
      else []
    case _ => [out]
  }

  /** What a leaf that decrypts decrypts to. */
  function Opened(leaf: Value, dec: Bytes -> Unsealed, codec: Codec): Value {
    if LeafDecrypts(leaf, dec, codec) then DecryptLeaf(leaf, dec, codec).value else leaf
  }

  function OpenAll(leaves: seq<Value>, dec: Bytes -> Unsealed, codec: Codec): seq<Value> {
    seq(|leaves|, i requires 0 <= i < |leaves| => Opened(leaves[i], dec, codec))
  }

  lemma {:induction false} OpenConcat(ss: seq<seq<Value>>, dec: Bytes -> Unsealed, codec: Codec)
    ensures OpenAll(Concat(ss), dec, codec)
         == Concat(seq(|ss|, i requires 0 <= i < |ss| => OpenAll(ss[i], dec, codec)))
  {
    if |ss| > 0 {
      OpenConcat(ss[1..], dec, codec);
      var mapped := seq(|ss|, i requires 0 <= i < |ss| => OpenAll(ss[i], dec, codec));
      assert mapped[1..] == seq(|ss[1..]|, i requires 0 <= i < |ss[1..]| => OpenAll(ss[1..][i], dec, codec));
      assert OpenAll(ss[0] + Concat(ss[1..]), dec, codec)
          == OpenAll(ss[0], dec, codec) + OpenAll(Concat(ss[1..]), dec, codec);
    }
  }

  lemma {:induction false} DecryptedLeavesInOrder(data: Value, dec: Bytes -> Unsealed, codec: Codec)
    requires DecryptValues(data, dec, codec).Ok?
    ensures AtLeaves(data, DecryptValues(data, dec, codec).value) == OpenAll(Leaves(data), dec, codec)
    decreases data
  {
    var out := DecryptValues(data, dec, codec).value;
    match data
    case Seq(_, items) =>
      var rs := seq(|items|, i requires 0 <= i < |items| => DecryptValues(items[i], dec, codec));
      var parts := seq(|items|, i requires 0 <= i < |items| => Leaves(items[i]));
      assert out.items == Collect(rs).value;
      forall i | 0 <= i < |items|
        ensures AtLeaves(items[i], out.items[i]) == OpenAll(parts[i], dec, codec)
      {
        assert rs[i] == Ok(out.items[i]);
        DecryptedLeavesInOrder(items[i], dec, codec);
      }
      OpenConcat(parts, dec, codec);
      assert parts == seq(|items|, i requires 0 <= i < |items| => Exposed(items[i], []));
      assert seq(|items|, i requires 0 <= i < |items| => AtLeaves(items[i], out.items[i]))
          == seq(|parts|, i requires 0 <= i < |parts| => OpenAll(parts[i], dec, codec));
    case Obj(fields) =>
      var rs := seq(|fields|, i requires 0 <= i < |fields| => DecryptValues(fields[i].val, dec, codec));
      var parts := seq(|fields|, i requires 0 <= i < |fields| =>
        if fields[i].key in [] then [] else Leaves(fields[i].val));
      var vs := Collect(rs).value;
      assert |out.fields| == |fields|;
      assert forall i :: 0 <= i < |fields| ==> out.fields[i].val == vs[i];
      forall i | 0 <= i < |fields|
        ensures AtLeaves(fields[i].val, out.fields[i].val) == OpenAll(parts[i], dec, codec)
      {
        assert rs[i] == Ok(out.fields[i].val);
        DecryptedLeavesInOrder(fields[i].val, dec, codec);
      }
      OpenConcat(parts, dec, codec);
      assert parts == seq(|fields|, i requires 0 <= i < |fields| =>
        if fields[i].key in [] then [] else Exposed(fields[i].val, []));
      assert seq(|fields|, i requires 0 <= i < |fields| => AtLeaves(fields[i].val, out.fields[i].val))
          == seq(|parts|, i requires 0 <= i < |parts| => OpenAll(parts[i], dec, codec));
    case _ =>
      assert Leaves(data) == [data];
      assert DecryptValues(data, dec, codec) == DecryptLeaf(data, dec, codec);
      assert LeafDecrypts(data, dec, codec);
  }

  /** A successful `decrypt_values` puts, at the position of each leaf of
      the input, that leaf's own decryption. */
  lemma DecryptValuesLeafwise(data: Value, dec: Bytes -> Unsealed, codec: Codec)
    ensures DecryptValues(data, dec, codec).Ok? ==>
      var ls := Leaves(data);
      var at := AtLeaves(data, DecryptValues(data, dec, codec).value);
      && |at| == |ls|
      && forall i :: 0 <= i < |ls| ==>
           LeafDecrypts(ls[i], dec, codec) && DecryptLeaf(ls[i], dec, codec) == Ok(at[i])
  {
    if DecryptValues(data, dec, codec).Ok? {
      DecryptedLeavesInOrder(data, dec, codec);
      DecryptFailsExactlyOnBadLeaf(data, dec, codec);
      var ls := Leaves(data);
      assert forall i :: 0 <= i < |ls| ==> ls[i] in ls;
    }
  }
}
