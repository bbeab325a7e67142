/** How `decrypt_values` undoes `encrypt_values`, in memory and after the
    document has been through the JSON column, and what it does to values
    that were never encrypted. */
module RoundTrip {
  import opened Values
  import opened KeyRing
  import opened Walker

  /** Under a skipped key there are no strings: only numbers, booleans and
      None, which `decrypt_values` passes through. */
  predicate SkippedStringFree(v: Value, skip: seq<string>)
    decreases v
  {
    match v
    case Seq(_, items) => forall i :: 0 <= i < |items| ==> SkippedStringFree(items[i], skip)
    case Obj(fields) =>
      forall i :: 0 <= i < |fields| ==>
        if fields[i].key in skip then StringFree(fields[i].val) else SkippedStringFree(fields[i].val, skip)
    case _ => true
  }

  lemma {:induction false} NothingSkipped(v: Value)
    ensures SkippedStringFree(v, [])
    decreases v
  {
    match v
    case Seq(_, items) =>
      forall i | 0 <= i < |items| ensures SkippedStringFree(items[i], []) {
        NothingSkipped(items[i]);
      }
    case Obj(fields) =>
      forall i | 0 <= i < |fields| ensures SkippedStringFree(fields[i].val, []) {
        NothingSkipped(fields[i].val);
      }
    case _ =>
  }

  lemma CollectAllOk(rs: seq<Result<Value, DecryptError>>, xs: seq<Value>)
    requires |rs| == |xs|
    requires forall i :: 0 <= i < |rs| ==> rs[i] == Ok(xs[i])
    ensures Collect(rs) == Ok(xs)
  {
    var r := Collect(rs);
    assert r.Ok?;
    assert r.value == xs;
  }

  /** A list whose elements each decrypt to the corresponding `xs` decrypts to `xs`. */
  lemma SeqDecrypts(kind: SeqKind, items: seq<Value>, xs: seq<Value>, dec: Bytes -> Unsealed, codec: Codec)
    requires |items| == |xs|
    requires forall i :: 0 <= i < |items| ==> DecryptValues(items[i], dec, codec) == Ok(xs[i])
    ensures DecryptValues(Seq(kind, items), dec, codec) == Ok(Seq(ListKind, xs))
  {
    var rs := seq(|items|, i requires 0 <= i < |items| => DecryptValues(items[i], dec, codec));
    CollectAllOk(rs, xs);
  }

  /** A dict whose values each decrypt to the corresponding `xs` decrypts to
      the dict with the same keys and `xs` as values. */
  lemma ObjDecrypts(fields: seq<Field>, keys: seq<string>, xs: seq<Value>, dec: Bytes -> Unsealed, codec: Codec)
    requires |fields| == |xs| && Keys(fields) == keys
    requires forall i :: 0 <= i < |fields| ==> DecryptValues(fields[i].val, dec, codec) == Ok(xs[i])
    ensures DecryptValues(Obj(fields), dec, codec) == Ok(Obj(seq(|xs|, i requires 0 <= i < |xs| => Field(keys[i], xs[i]))))
  {
    var rs := seq(|fields|, i requires 0 <= i < |fields| => DecryptValues(fields[i].val, dec, codec));
    CollectAllOk(rs, xs);
    assert forall i :: 0 <= i < |fields| ==> fields[i].key == keys[i];
    var out := seq(|fields|, i requires 0 <= i < |fields| => Field(fields[i].key, xs[i]));
    assert DecryptValues(Obj(fields), dec, codec) == Ok(Obj(out));
    assert out == seq(|xs|, i requires 0 <= i < |xs| => Field(keys[i], xs[i]));
  }

  /** `Canon` of a dict, written over its keys. */
  lemma CanonObj(fields: seq<Field>, xs: seq<Value>)
    requires |xs| == |fields| && forall i :: 0 <= i < |fields| ==> xs[i] == Canon(fields[i].val)
    ensures Canon(Obj(fields)) == Obj(seq(|xs|, i requires 0 <= i < |xs| => Field(Keys(fields)[i], xs[i])))
  {
    var c := Canon(Obj(fields)).fields;
    var want := seq(|xs|, i requires 0 <= i < |xs| => Field(Keys(fields)[i], xs[i]));
    assert |c| == |want|;
    forall i | 0 <= i < |c| ensures c[i] == want[i] {
      assert c[i] == Field(fields[i].key, Canon(fields[i].val));
      assert Keys(fields)[i] == fields[i].key;
    }
  }

  /** `Stored` of a dict, written over its keys. */
  lemma StoredObj(fields: seq<Field>, xs: seq<Value>)
    requires |xs| == |fields| && forall i :: 0 <= i < |fields| ==> xs[i] == Stored(fields[i].val)
    ensures Stored(Obj(fields)) == Obj(seq(|xs|, i requires 0 <= i < |xs| => Field(Keys(fields)[i], xs[i])))
  {
    var c := Stored(Obj(fields)).fields;
    var want := seq(|xs|, i requires 0 <= i < |xs| => Field(Keys(fields)[i], xs[i]));
    assert |c| == |want|;
    forall i | 0 <= i < |c| ensures c[i] == want[i] {
      assert c[i] == Field(fields[i].key, Stored(fields[i].val));
      assert Keys(fields)[i] == fields[i].key;
    }
  }

  /** One leaf comes back as `json.loads` returns it: from the in-memory
      token (bytes) and from the stored token (text, retried as latin-1
      bytes). */
  lemma LeafRoundTrip(d: Value, enc: Bytes -> Bytes, dec: Bytes -> Unsealed, codec: Codec)
    requires Inverts(enc, dec) && ScalarRoundTrip(codec)
    requires IsScalar(d) && AsciiStrings(d)
    ensures DecryptLeaf(Token(d, enc, codec), dec, codec) == Ok(Stored(d))
    ensures DecryptLeaf(Stored(Token(d, enc, codec)), dec, codec) == Ok(Stored(d))
  {
    var payload := codec.dumps(d);
    assert dec(enc(payload)) == Plain(payload);
    assert codec.loads(payload) == Some(Stored(d));
    Latin1RoundTrip(enc(payload));
  }

  /** Decrypting the encryption of a document gives the document back as
      the JSON column would: tuples and sets as lists, byte strings as the
      text they decode to. */
  lemma {:induction false} InMemoryRoundTrip(d: Value, enc: Bytes -> Bytes, dec: Bytes -> Unsealed, codec: Codec)
    requires Inverts(enc, dec) && ScalarRoundTrip(codec)
    requires AsciiStrings(d)
    ensures DecryptValues(EncryptValues(d, enc, codec), dec, codec) == Ok(Stored(d))
    decreases d
  {
    var e := EncryptValues(d, enc, codec);
    match d
    case Seq(_, items) =>
      var xs := seq(|items|, i requires 0 <= i < |items| => Stored(items[i]));
      forall i | 0 <= i < |items| ensures DecryptValues(e.items[i], dec, codec) == Ok(xs[i]) {
        InMemoryRoundTrip(items[i], enc, dec, codec);
      }
      SeqDecrypts(e.kind, e.items, xs, dec, codec);
    case Obj(fields) =>
      var xs := seq(|fields|, i requires 0 <= i < |fields| => Stored(fields[i].val));
      forall i | 0 <= i < |fields| ensures DecryptValues(e.fields[i].val, dec, codec) == Ok(xs[i]) {
        InMemoryRoundTrip(fields[i].val, enc, dec, codec);
      }
      ObjDecrypts(e.fields, Keys(fields), xs, dec, codec);
      StoredObj(fields, xs);
    case _ =>
      LeafRoundTrip(d, enc, dec, codec);
  }

  /** A document of numbers, booleans and None is its own decryption: every
      leaf raises TypeError in the decrypter and again in `json.loads`. */
  lemma {:induction false} StringFreePassesThrough(v: Value, dec: Bytes -> Unsealed, codec: Codec)
    requires StringFree(v)
    ensures DecryptValues(v, dec, codec) == Ok(Canon(v))
    ensures DecryptValues(Stored(v), dec, codec) == Ok(Canon(v))
    decreases v
  {
    match v
    case Seq(_, items) =>
      var xs := seq(|items|, i requires 0 <= i < |items| => Canon(items[i]));
      var st := Stored(v);
      forall i | 0 <= i < |items|
        ensures DecryptValues(items[i], dec, codec) == Ok(xs[i])
        ensures DecryptValues(st.items[i], dec, codec) == Ok(xs[i])
      {
        StringFreePassesThrough(items[i], dec, codec);
      }
      SeqDecrypts(v.kind, items, xs, dec, codec);
      SeqDecrypts(st.kind, st.items, xs, dec, codec);
    case Obj(fields) =>
      var xs := seq(|fields|, i requires 0 <= i < |fields| => Canon(fields[i].val));
      var st := Stored(v);
      forall i | 0 <= i < |fields|
        ensures DecryptValues(fields[i].val, dec, codec) == Ok(xs[i])
        ensures DecryptValues(st.fields[i].val, dec, codec) == Ok(xs[i])
      {
        StringFreePassesThrough(fields[i].val, dec, codec);
      }
      assert Keys(st.fields) == Keys(fields);
      ObjDecrypts(fields, Keys(fields), xs, dec, codec);
      ObjDecrypts(st.fields, Keys(fields), xs, dec, codec);
      CanonObj(fields, xs);
    case _ =>
  }

  /** Reading back what was written: encryption with `skip`, storage in the
      JSON column, then decryption, gives the document back as the column
      would hold it unencrypted, provided no string sits below a skipped
      key. */
  lemma {:induction false} StoredRoundTrip(d: Value, enc: Bytes -> Bytes, dec: Bytes -> Unsealed, codec: Codec,
                                          skip: seq<string>)
    requires Inverts(enc, dec) && ScalarRoundTrip(codec)
    requires AsciiStrings(d) && SkippedStringFree(d, skip)
    ensures DecryptValues(Stored(EncryptSkipping(d, enc, codec, skip)), dec, codec) == Ok(Stored(d))
    decreases d
  {
    var e := EncryptSkipping(d, enc, codec, skip);
    var s := Stored(e);
    match d
    case Seq(_, items) =>
      var xs := seq(|items|, i requires 0 <= i < |items| => Stored(items[i]));
      forall i | 0 <= i < |items| ensures DecryptValues(s.items[i], dec, codec) == Ok(xs[i]) {
        StoredRoundTrip(items[i], enc, dec, codec, skip);
      }
      SeqDecrypts(s.kind, s.items, xs, dec, codec);
    case Obj(fields) =>
      var xs := seq(|fields|, i requires 0 <= i < |fields| => Stored(fields[i].val));
      forall i | 0 <= i < |fields| ensures DecryptValues(s.fields[i].val, dec, codec) == Ok(xs[i]) {
        if fields[i].key in skip {
          assert e.fields[i] == fields[i];
          StringFreePassesThrough(fields[i].val, dec, codec);
          StringFreeIsPlain(fields[i].val);
          StoredPlainIsCanon(fields[i].val);
        } else {
          StoredRoundTrip(fields[i].val, enc, dec, codec, skip);
        }
      }
      assert Keys(s.fields) == Keys(e.fields);
      ObjDecrypts(s.fields, Keys(fields), xs, dec, codec);
      StoredObj(fields, xs);
    case _ =>
      LeafRoundTrip(d, enc, dec, codec);
  }

  /** The latin-1 retry is unguarded: a plain text value stored under a
      skipped key makes reading the whole document raise, unless its bytes
      happen to be a token. */
  lemma SkippedTextUnreadable(fields: seq<Field>, i: nat, enc: Bytes -> Bytes, dec: Bytes -> Unsealed,
                              codec: Codec, skip: seq<string>)
    requires i < |fields| && fields[i].key in skip && fields[i].val.Text?
    requires var b := Latin1Encode(fields[i].val.s); b.None? || dec(b.value).InvalidToken?
    ensures DecryptValues(Stored(EncryptSkipping(Obj(fields), enc, codec, skip)), dec, codec).Err?
  {
    var e := EncryptSkipping(Obj(fields), enc, codec, skip);
    var s := Stored(e);
    assert e.fields[i] == fields[i];
    assert s.fields[i].val == Stored(e.fields[i].val);
    var rs := seq(|fields|, j requires 0 <= j < |fields| => DecryptValues(s.fields[j].val, dec, codec));
    assert s.fields[i].val == fields[i].val;
    assert rs[i].Err?;
  }
}
