/** The document of tests/test_app/tests.py:37-52 and 76-91, without the
    values this model does not cover: the float under `nested_1.previous`
    and the `datetime`, `date` and `with_tz` entries. Everything else is as
    written there; in particular `'and': 'more'` is a Python 2 byte string
    (the test module does not import `unicode_literals`) and
    `'unicode': u'more'` is text. The facts about it hold for every
    encrypter, decrypter and codec that obey the laws named in each
    lemma. */
module Scenarios {
  import opened Values
  import opened KeyRing
  import opened Walker
  import RoundTrip

  function Many(): Value {
    Seq(ListKind, [Int(1), Int(2), Int(3)])
  }

  /** The byte string `'more'`. */
  function MoreBytes(): Bytes {
    [109, 111, 114, 101]
  }

  function NestedOne(): Value {
    Obj([
      Field("test", Bool(true)),
      Field("next", Int(1)),
      Field("and", Binary(MoreBytes())),
      Field("unicode", Text("more"))
    ])
  }

  function ManyNested(): Value {
    Seq(ListKind, [Obj([Field("test", Int(1))]), Obj([Field("test", Int(2))])])
  }

  function TestDocument(): Value {
    Obj([
      Field("test", Int(1)),
      Field("null", Null),
      Field("many", Many()),
      Field("nested_1", NestedOne()),
      Field("many_nested", ManyNested())
    ])
  }

  /** The keys the partially encrypted field skips. tests/test_app/models.py
      does not declare that field, and the migration that adds it
      (0002_testmodel_partial_encrypt.py) passes no `skip_keys`, so this
      list is inferred from the assertions of tests.py:105-108, which
      expect `test` and `many_nested` stored as given. */
  function TestSkipKeys(): seq<string> {
    ["test", "many_nested"]
  }

  lemma TestDocumentLookups()
    ensures Keys(TestDocument().fields) == ["test", "null", "many", "nested_1", "many_nested"]
    ensures Lookup(TestDocument().fields, "many") == Some(Many())
    ensures Lookup(TestDocument().fields, "nested_1") == Some(NestedOne())
  {
  }

  /** `many` holds the number 1 as its first leaf. */
  lemma ManyExposesANumber(skip: seq<string>)
    ensures |Exposed(Many(), skip)| > 0 && Exposed(Many(), skip)[0] == Int(1)
  {
  }

  /** Below `nested_1`, `test` is skipped again, but the number under
      `next` is not. */
  lemma NestedExposesANumber()
    ensures |Exposed(NestedOne(), TestSkipKeys())| > 0
    ensures Exposed(NestedOne(), TestSkipKeys())[0] == Int(1)
  {
    var nested := NestedOne();
    var skip := TestSkipKeys();
    assert "test" in skip;
    assert "next" !in skip by {
      assert "next" != skip[0] && "next" != skip[1];
    }
    var parts := seq(|nested.fields|, i requires 0 <= i < |nested.fields| =>
      if nested.fields[i].key in skip then [] else Exposed(nested.fields[i].val, skip));
    assert |parts| == 4;
    assert parts[0] == [];
    assert parts[1] == [Int(1)];
    assert Concat(parts) == [] + Concat(parts[1..]);
    assert Concat(parts[1..]) == parts[1] + Concat(parts[2..]);
  }

  /** With `test` and `many_nested` skipped, those two entries are stored
      as they were given while `many` and `nested_1` are not. */
  lemma PartialEncryptScenario(enc: Bytes -> Bytes, codec: Codec)
    ensures var doc := TestDocument();
      var stored := EncryptSkipping(doc, enc, codec, TestSkipKeys());
      && stored.Obj?
      && Lookup(stored.fields, "test") == Lookup(doc.fields, "test")
      && Lookup(stored.fields, "many_nested") == Lookup(doc.fields, "many_nested")
      && Lookup(stored.fields, "many") != Lookup(doc.fields, "many")
      && Lookup(stored.fields, "nested_1") != Lookup(doc.fields, "nested_1")
  {
    var doc := TestDocument();
    var skip := TestSkipKeys();
    TestDocumentLookups();
    assert "many" !in skip && "nested_1" !in skip;
    SkippedKeyStoredAsIs(doc.fields, "test", enc, codec, skip);
    SkippedKeyStoredAsIs(doc.fields, "many_nested", enc, codec, skip);
    SkippedKeyStoredAsIs(doc.fields, "many", enc, codec, skip);
    SkippedKeyStoredAsIs(doc.fields, "nested_1", enc, codec, skip);
    ManyExposesANumber(skip);
    EncryptedSubtreeDiffers(Many(), enc, codec, skip, 0);
    NestedExposesANumber();
    EncryptedSubtreeDiffers(NestedOne(), enc, codec, skip, 0);
  }

  lemma TestDocumentIsAsciiLists()
    ensures AsciiStrings(TestDocument()) && ListsOnly(TestDocument())
  {
  }

  /** Without skipping, the document is stored with every leaf a token and
      reads back equal, in Python 2, to what was written: the byte string
      under `and` comes back as the text `u'more'`. */
  lemma FullEncryptScenario(enc: Bytes -> Bytes, dec: Bytes -> Unsealed, codec: Codec)
    requires Inverts(enc, dec) && ScalarRoundTrip(codec)
    ensures forall l :: l in Leaves(EncryptValues(TestDocument(), enc, codec)) ==> l.Binary?
    ensures DecryptValues(Stored(EncryptValues(TestDocument(), enc, codec)), dec, codec) == Ok(Stored(TestDocument()))
    ensures Py2Equal(Stored(TestDocument()), TestDocument())
  {
    var doc := TestDocument();
    EncryptValuesLeafwise(doc, enc, codec);
    NoSkipsIsEncryptValues(doc, enc, codec);
    TestDocumentIsAsciiLists();
    RoundTrip.NothingSkipped(doc);
    RoundTrip.StoredRoundTrip(doc, enc, dec, codec, []);
    StoredPy2EqualsCanon(doc);
    CanonKeepsLists(doc);
  }
}
