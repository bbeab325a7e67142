# django-encrypted-json, modelled in Dafny

This project models the value-encryption core of django-encrypted-json: a
Django JSON field that encrypts every scalar value of a JSON document with
Fernet before it is stored and decrypts the values again when it is read.
The document's structure (lists and dict keys) stays visible in the
database; only the leaves are encrypted.

Modules, following the source:

- `Values` (`values.dfy`): Python values as the walkers see them. This
  covers None, booleans, integers, `unicode` text, byte strings (`str`),
  lists/tuples/sets and dicts. Dicts are sequences of (key, value) pairs in
  iteration order. It also holds leaf enumeration, latin-1
  encoding/decoding, what the JSON column gives back for a stored value
  (`Stored`), and Python 2's `==` between byte strings and text
  (`Py2Equal`).
- `KeyRing` (`keyring.dfy`): the key list built from the
  `FIELD_ENCRYPTION_KEY` setting (`django_encrypted_json/utils.py`, lines
  8-24). It also models MultiFernet's policy: encrypt with the first key,
  decrypt by trying each key in order. A single Fernet key is an abstract
  `Cipher` whose laws (`Sound`, `KeyBound`) appear as lemma hypotheses.
- `Walker` (`walker.dfy`): `encrypt_values`, `decrypt_values`, and the
  `skip_keys` variant of encryption that `fields.py` calls. As in the
  source, the walkers take the encrypter and the decrypter as parameters.
  The source calls the module-level `json.dumps`/`json.loads`; the model
  passes that codec as a parameter too, so that its behaviour
  (`ScalarRoundTrip`) can be a hypothesis.
- `RoundTrip` (`roundtrip.dfy`): decrypting what was encrypted, both in
  memory and after storage. It also covers pass-through of values that were
  never encrypted, and the case where reading raises.
- `Fields` (`fields.py` → `fields.dfy`): `EncryptedValueJsonField`. This
  covers the `skip_keys` option, the blank/default/null normalisation in
  `get_db_prep_value`, and `to_python`.
- `Scenarios` (`scenarios.dfy`): facts about the walkers on the test
  document of `tests/test_app/tests.py`.

## Behaviour worth knowing

- **Text that was never encrypted makes reading raise.** A `unicode` leaf
  makes the decrypter raise `TypeError` (`utils.py:87-88`). The leaf is then
  retried as latin-1 bytes (`utils.py:92`). That retry runs inside the
  `except TypeError` handler, so the `InvalidToken` handler at line 97 does
  not cover it. The retry's `InvalidToken`, or a `UnicodeEncodeError` for
  characters above U+00FF, escapes `decrypt_values`, and `DecryptValues`
  returns `Err` for these. `SkippedTextUnreadable` shows one consequence: a
  text value stored under a skipped key cannot be read back.
- **Byte strings and non-strings never raise, but they are not always
  kept.** A byte string that is not a token is given to `json.loads`
  (`utils.py:97-101`), so `'1'` becomes `1` and `'"x"'` becomes `u'x'`.
  Only a byte string that does not parse as JSON is kept as it is.
  Numbers, booleans and None are kept.
- **Skipped subtrees are copied as they are.** `tests.py:105-106` compares
  a skipped entry of the stored document with the input for equality, so
  `EncryptSkipping` copies it unchanged.
- **`skip_keys` is not in `utils.py`.** The `encrypt_values` in
  `utils.py:27` has no `skip_keys` parameter, yet `fields.py:84` passes one.
  `EncryptSkipping` adds it as an explicit parameter. Checking the skip
  list again at every nested dict is this model's choice. The tests only
  show behaviour at the top level (`SkippedKeyStoredAsIs`,
  `PartialEncryptScenario`).
- **Byte strings come back as text.** Python 2's `json.loads` returns
  `unicode` for every string, so a document holding `'more'` reads back
  holding `u'more'`. The round trips state the result as `Stored(d)`, the
  document as the JSON column holds it. `StoredPy2EqualsCanon` shows that
  this equals `d` under Python 2's `==` once tuples and sets are lists.

## Model

| member | source | states |
|---|---|---|
| KeyRing.KeysFromSetting | django_encrypted_json/utils.py:8-22 | a list or tuple setting gives its keys in order, a dict gives one key per entry and contains exactly its values, a single key gives a one-element list |
| KeyRing.MakeRing | django_encrypted_json/utils.py:24 | building the MultiFernet fails exactly when the setting yields no key; otherwise the ring is the configured keys in order |
| KeyRing.TryKeys | django_encrypted_json/utils.py:74 | the decrypter answers InvalidToken exactly when no key opens the token, and otherwise the plaintext of the first key in ring order that opens it |
| KeyRing.RingInverts | django_encrypted_json/utils.py:24 | for a sound cipher, whatever the ring's encrypter produces its decrypter turns back into the plaintext |
| KeyRing.RotatedKeyDecrypts | django_encrypted_json/utils.py:7-24 | key rotation: a token sealed under any key still in the ring, first or demoted, decrypts to its plaintext |
| KeyRing.RetiredKeyRejected | django_encrypted_json/utils.py:24 | a token sealed under a key no longer in the ring is rejected with InvalidToken |
| Walker.EncryptValues | django_encrypted_json/utils.py:45-54 | the result has the input's container skeleton: sequences of equal length, dicts with the same keys in order, scalars for scalars; and it holds only lists, so tuples and sets became lists |
| Walker.EncryptValuesLeafwise | django_encrypted_json/utils.py:54 | the i-th leaf of the result is `encrypter(dumps(leaf))` of the i-th input leaf, None included, so every leaf of the output is a token |
| Walker.EncryptSkipping | django_encrypted_json/fields.py:84 | with skip keys the skeleton is still kept, and a dict entry whose key is skipped, at the top level or in any nested dict reached by the walk, is stored exactly as given |
| Walker.EncryptSkippingLeafwise | django_encrypted_json/fields.py:84 | every leaf not below a skipped key becomes the token of that leaf, in the same position |
| Walker.NoSkipsIsEncryptValues | django_encrypted_json/utils.py:27-54 | with an empty skip list the skipping walker is `encrypt_values` |
| Walker.SkippedKeyStoredAsIs | tests/test_app/tests.py:104-108 | looking up a top-level key in the stored dict gives the input value if the key is skipped, and its encryption if not |
| Walker.EncryptedSubtreeDiffers | tests/test_app/tests.py:107-108 | a subtree with a non-byte-string leaf that is not below a skipped key is changed by encryption |
| Walker.Attempt | django_encrypted_json/utils.py:85-98 | the try/except block: a token gives its plaintext; a byte string that is no token and every non-string are kept; text is retried as latin-1 bytes, raising UnicodeEncodeError when a character lies above U+00FF, raising InvalidToken when the bytes are no token, and giving the plaintext otherwise |
| Walker.DecryptLeaf | django_encrypted_json/utils.py:85-103 | numbers, booleans and None pass through; a token is decrypted and parsed if it parses; a byte string that is no token is parsed if it parses, else kept; text raises exactly when it is not latin-1 or its bytes are no token; nothing but text raises |
| Walker.Collect | django_encrypted_json/utils.py:77 | a list comprehension succeeds exactly when every element does, keeps order and length, and otherwise raises the first element's exception |
| Walker.DecryptValues | django_encrypted_json/utils.py:76-83 | a successful decryption keeps the container skeleton: sequences become lists of equal length and dicts keep their keys in order (what sits at the leaves is stated by `Walker.DecryptValuesLeafwise`) |
| Walker.DecryptFailsExactlyOnBadLeaf | django_encrypted_json/utils.py:57-103 | `decrypt_values` raises exactly when some leaf of the document raises |
| Walker.DecryptValuesLeafwise | django_encrypted_json/utils.py:76-103 | when `decrypt_values` succeeds, at the position of every leaf of the input sits that leaf's own decryption, in order |
| RoundTrip.LeafRoundTrip | django_encrypted_json/utils.py:85-103 | one scalar's token decrypts to the scalar as `json.loads` returns it (a byte string as text), both as bytes in memory and as text read back from the column |
| RoundTrip.InMemoryRoundTrip | django_encrypted_json/utils.py:27-103 | decrypting the encryption of a document gives the document back with tuples and sets as lists and byte strings as the text they decode to |
| RoundTrip.StringFreePassesThrough | django_encrypted_json/utils.py:88-103 | a document of numbers, booleans and None decrypts to itself, in memory and read from the column |
| RoundTrip.StoredRoundTrip | tests/test_app/tests.py:113-129 | encrypting with skip keys, storing and decrypting gives the document back as the column holds it, when no string sits below a skipped key |
| RoundTrip.SkippedTextUnreadable | django_encrypted_json/utils.py:88-98 | a text value stored under a skipped key, whose bytes are no token, makes reading the whole document raise |
| Values.StoredPy2EqualsCanon | django_encrypted_json/utils.py:100-101 | a document whose byte strings `json.loads` has turned into text is equal, under Python 2's `==`, to the original with tuples and sets as lists |
| Fields.NewField | django_encrypted_json/fields.py:51-54 | `skip_keys` is the given list, or the empty list when the option is absent |
| Fields.Substitute | django_encrypted_json/fields.py:70-79 | on a blank field an empty string becomes the default, or the default's result if callable, or `{}` with no default; every other value is kept |
| Fields.GetDbPrepValue | django_encrypted_json/fields.py:65-86 | the field stores NULL exactly when it is nullable and the substituted value is None; otherwise it stores a document of the substituted value's skeleton whose unskipped leaves are its tokens and whose entries under `skip_keys` are stored as given |
| Fields.ToPython | django_encrypted_json/fields.py:61-63 | reading decrypts the value: the result keeps its container skeleton, each leaf position holds that leaf's decryption, and reading raises exactly when some leaf does |
| Fields.EmptyStringWithoutDefaultStoresEmptyDict | django_encrypted_json/fields.py:72-79 | a blank field without default stores `""` as an empty dict |
| Fields.SubstitutionPrecedesNullCheck | django_encrypted_json/fields.py:72-82 | the null check sees the substituted value: a default yielding None stores NULL |
| Fields.NoneOnNonNullableIsEncrypted | django_encrypted_json/fields.py:81-84 | on a field that is not nullable, None is stored as the token of `dumps(None)` |
| Fields.DefaultFieldEncryptsEverything | django_encrypted_json/fields.py:52 | a field built without `skip_keys` stores exactly `encrypt_values` of the substituted value |
| Fields.FieldRoundTrip | django_encrypted_json/fields.py:61-86 | what `get_db_prep_value` writes, read back by `to_python`, is the substituted value as the column holds it, equal to it under Python 2's `==` and identical when it holds no byte string; this needs a sound cipher and codec and no string below a skipped key |
| Scenarios.PartialEncryptScenario | tests/test_app/tests.py:104-108 | for the test document with `test` and `many_nested` skipped, those entries are stored unchanged and `many` and `nested_1` are not |
| Scenarios.FullEncryptScenario | tests/test_app/tests.py:64-72 | for the test document without skipping every stored leaf is a token, and reading back gives a document equal to it under Python 2's `==`, with the byte string `'more'` now text |

## Left out

- Fernet and MultiFernet internals (AES-CBC, HMAC, token layout,
  timestamps, TTL). A key's cipher is the abstract `Cipher` with the
  `Sound` and `KeyBound` laws. Fernet's fresh IV per call is not modelled:
  the encrypter is a function, so equal plaintexts give equal tokens here.
- Validation of a key by `Fernet(k)`, which raises `ValueError` on a
  malformed key. A configured key is taken as valid.
- The text format of `json.dumps`/`json.loads`. The codec is abstract,
  with `loads(dumps(v)) == v` assumed for scalars JSON can hold. A
  `json.dumps` failure (unserialisable objects, byte strings that are not
  UTF-8) is not modelled.
- Floats, `datetime` and `date` values. Their serialisation depends on
  code outside these files. Numbers are integers.
- RoundTrip.InMemoryRoundTrip: stated for documents whose byte strings
  are ASCII. `json.dumps` decodes a `str` as UTF-8, which is not modelled.
- RoundTrip.StoredRoundTrip: as `InMemoryRoundTrip`, ASCII byte strings
  only. Strings below a skipped key are excluded because reading them
  raises (`RoundTrip.SkippedTextUnreadable`).
- Fields.FieldRoundTrip: ASCII byte strings only, for the same reason.
- Scenarios.FullEncryptScenario: the test document is used without the
  float under `nested_1.previous` and without the `datetime`, `date` and
  `with_tz` entries, because floats and dates are not modelled.
- Scenarios.PartialEncryptScenario: the same reduced test document, for
  the same reason.
- Py2Equal compares dict pairs in their given order, and treats `True` and
  `1` as different. Python 2's `==` ignores dict order and finds `True == 1`,
  so `Py2Equal` implies `==` but not the other way round.
- Django and django_pgjson plumbing: settings loading (the setting is a
  parameter), the parent `to_python` and `get_db_prep_value` (their result
  is the input here), and `JsonAdapter` (`Prepared.Adapted` stands for it).
  Also left out: the misspelled `desconstruct` override, which Django never
  calls, and `EncryptedValueJsonBField`, which adds no logic.
- `Stored` decodes stored byte strings as latin-1. The column decodes them
  as UTF-8, and the two agree on the ASCII tokens Fernet produces.
- The default `encrypter or crypter.encrypt`: the walkers always receive an
  explicit function. The field passes the ring's functions (`Fields.Crypto`).
- Dict and set iteration order is arbitrary in Python; here it is the
  order of the given pairs or elements. Sets are not checked for duplicates.
- Python 2 `str`/`unicode` distinctions beyond the `TypeError` → latin-1
  retry of `decrypt_values`.
- Migrations, `tests/test_app/models.py` and `setup.py`: configuration
  without logic.
