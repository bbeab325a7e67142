/** `EncryptedValueJsonField` of django_encrypted_json/fields.py: the
    value normalisation that runs before encryption on the way to the
    database, and decryption on the way back.

    The parent classes' conversions (`JsonField.to_python`,
    `Field.get_db_prep_value`) are outside this model: the value handed to
    these functions is the one the parent produced.
 */
module Fields {
  import opened Values
  import opened KeyRing
  import opened Walker
  import RoundTrip

  /** Django's `default` option. A callable default is represented by the
      value it returns when called. */
  datatype Default = NotProvided | Constant(value: Value) | Callable(result: Value)

  datatype FieldConfig = FieldConfig(blank: bool, nullable: bool, default: Default, skipKeys: seq<string>)

  /** The module-level MultiFernet and the JSON codec the field relies on. */
  datatype Crypto = Crypto(cipher: Cipher, ring: Ring, codec: Codec)

  /** What `get_db_prep_value` hands to the database: SQL NULL, or the
      adapted JSON document. */
  datatype Prepared = DbNull | Adapted(json: Value)

  /** `EncryptedValueJsonField(..., skip_keys=...)`: the `skip_keys`
      keyword is taken out of the options, an empty list when absent. */
  function NewField(blank: bool, nullable: bool, default: Default, skipKeys: Option<seq<string>>): (f: FieldConfig)
    ensures skipKeys.None? ==> f.skipKeys == []
    ensures skipKeys.Some? ==> f.skipKeys == skipKeys.value
    ensures f.blank == blank && f.nullable == nullable && f.default == default
  {
    FieldConfig(blank, nullable, default, match skipKeys case Some(ks) => ks case None => [])
  }

  /** `value == ""` in Python 2 holds for the empty `str` and the empty `unicode`. */
  predicate IsEmptyString(v: Value) {
    v == Text("") || v == Binary([])
  }

  /** The blank-value rule: an empty string on a blank field is replaced by
      the default (its result, if callable), or by an empty dict when the
      field has no default. Anything else is kept. */
  function Substitute(f: FieldConfig, value: Value): (r: Value)
    ensures !(f.blank && IsEmptyString(value)) ==> r == value
    ensures f.blank && IsEmptyString(value) ==>
      match f.default
      case NotProvided => r == Obj([])
      case Constant(c) => r == c
      case Callable(result) => r == result
  {
    if f.blank && IsEmptyString(value) then
      match f.default
      case NotProvided => Obj([])
      case Constant(c) => c
      case Callable(result) => result
    else value
  }

  function CryptoEncrypter(cx: Crypto): Bytes -> Bytes {
    Encrypter(cx.cipher, cx.ring)
  }

  function CryptoDecrypter(cx: Crypto): Bytes -> Unsealed {
    Decrypter(cx.cipher, cx.ring)
  }

  /** `get_db_prep_value`: substitution first, then the null check, then
      encryption with the field's skip keys. */
  function GetDbPrepValue(f: FieldConfig, value: Value, cx: Crypto): (r: Prepared)
    ensures r.DbNull? <==> f.nullable && Substitute(f, value).Null?
    // the unskipped leaves are replaced by their tokens
    ensures r.Adapted? ==>
      && SameShape(Substitute(f, value), r.json)
      && Exposed(r.json, f.skipKeys)
         == SealAll(Exposed(Substitute(f, value), f.skipKeys), CryptoEncrypter(cx), cx.codec)
    // the skip keys reach the walker: their entries are stored as given
    ensures r.Adapted? ==> CopiesSkipped(Substitute(f, value), r.json, f.skipKeys)
    ensures r.Adapted? && Substitute(f, value).Obj? ==>
      && r.json.Obj?
      && forall i :: 0 <= i < |Substitute(f, value).fields| && Substitute(f, value).fields[i].key in f.skipKeys ==>
           r.json.fields[i] == Substitute(f, value).fields[i]
  {
    var v := Substitute(f, value);
    if f.nullable && v.Null? then DbNull
    else
      var json := EncryptSkipping(v, CryptoEncrypter(cx), cx.codec, f.skipKeys);
      EncryptSkippingLeafwise(v, CryptoEncrypter(cx), cx.codec, f.skipKeys);
      Adapted(json)
  }

  /** `to_python`: the parent's conversion, then `decrypt_values` with the
      module-level decrypter. */
  function ToPython(value: Value, cx: Crypto): (r: Result<Value, DecryptError>)
    ensures r.Ok? ==> KeepsContainers(value, r.value)
    // each leaf of the result is the decryption of the leaf read from the column
    ensures r.Ok? ==>
      var ls := Leaves(value);
      var at := AtLeaves(value, r.value);
      && |at| == |ls|
      && forall i :: 0 <= i < |ls| ==>
           LeafDecrypts(ls[i], CryptoDecrypter(cx), cx.codec)
           && DecryptLeaf(ls[i], CryptoDecrypter(cx), cx.codec) == Ok(at[i])
    // and reading raises exactly when some leaf does
    ensures r.Ok? <==> forall l :: l in Leaves(value) ==> LeafDecrypts(l, CryptoDecrypter(cx), cx.codec)
  {
    DecryptValuesLeafwise(value, CryptoDecrypter(cx), cx.codec);
    DecryptFailsExactlyOnBadLeaf(value, CryptoDecrypter(cx), cx.codec);
    DecryptValues(value, CryptoDecrypter(cx), cx.codec)
  }

  /** A blank field with no default stores an empty string as an empty dict. */
  lemma EmptyStringWithoutDefaultStoresEmptyDict(f: FieldConfig, value: Value, cx: Crypto)
    requires f.blank && f.default.NotProvided? && IsEmptyString(value)
    ensures GetDbPrepValue(f, value, cx) == Adapted(Obj([]))
  {
  }

  /** The null check sees the substituted value: a blank, nullable field
      whose default yields None stores an empty string as NULL. */
  lemma SubstitutionPrecedesNullCheck(f: FieldConfig, value: Value, cx: Crypto)
    requires f.blank && f.nullable && IsEmptyString(value)
    requires f.default == Constant(Null) || f.default == Callable(Null)
    ensures GetDbPrepValue(f, value, cx) == DbNull
  {
  }

  /** On a field that is not nullable, None is encrypted like any other
      leaf: the stored value is the token of `json.dumps(None)`. */
  lemma NoneOnNonNullableIsEncrypted(f: FieldConfig, cx: Crypto)
    requires !f.nullable
    ensures GetDbPrepValue(f, Null, cx) == Adapted(Token(Null, CryptoEncrypter(cx), cx.codec))
  {
  }

  /** A field built without `skip_keys` stores exactly `encrypt_values` of
      the (substituted) value. */
  lemma DefaultFieldEncryptsEverything(blank: bool, nullable: bool, default: Default, value: Value, cx: Crypto)
    ensures var f := NewField(blank, nullable, default, None);
      GetDbPrepValue(f, value, cx).Adapted? ==>
        GetDbPrepValue(f, value, cx).json == EncryptValues(Substitute(f, value), CryptoEncrypter(cx), cx.codec)
  {
    var f := NewField(blank, nullable, default, None);
    NoSkipsIsEncryptValues(Substitute(f, value), CryptoEncrypter(cx), cx.codec);
  }

  /** What `get_db_prep_value` writes, read back from the JSON column by
      `to_python`, is the substituted value as the column holds it: equal to
      it in Python 2 once tuples and sets are lists, and identical when it
      holds no byte string. This needs every byte string to be ASCII and no
      string below a skipped key. */
  lemma FieldRoundTrip(f: FieldConfig, value: Value, cx: Crypto)
    requires Sound(cx.cipher) && ScalarRoundTrip(cx.codec)
    requires AsciiStrings(Substitute(f, value)) && RoundTrip.SkippedStringFree(Substitute(f, value), f.skipKeys)
    requires GetDbPrepValue(f, value, cx).Adapted?
    ensures ToPython(Stored(GetDbPrepValue(f, value, cx).json), cx) == Ok(Stored(Substitute(f, value)))
    ensures Py2Equal(Stored(Substitute(f, value)), Canon(Substitute(f, value)))
    ensures IsPlain(Substitute(f, value)) ==> Stored(Substitute(f, value)) == Canon(Substitute(f, value))
  {
    var v := Substitute(f, value);
    RingInverts(cx.cipher, cx.ring);
    RoundTrip.StoredRoundTrip(v, CryptoEncrypter(cx), CryptoDecrypter(cx), cx.codec, f.skipKeys);
    StoredPy2EqualsCanon(v);
    if IsPlain(v) {
      StoredPlainIsCanon(v);
    }
  }
}
