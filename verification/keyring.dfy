/** The key ring built from the FIELD_ENCRYPTION_KEY setting, and the
    MultiFernet behaviour the walkers rely on: encrypt with the first key,
    decrypt by trying every key in order.

    A single Fernet key is abstract: a `Cipher` is any pair of seal/open
    functions, and the laws Fernet's authenticated encryption provides are
    stated as predicates that lemmas take as hypotheses.
 */
module KeyRing {
  import opened Values

  /** A configured Fernet key (its url-safe base64 text, as bytes). */
  type Key = Bytes

  /** The shapes the FIELD_ENCRYPTION_KEY setting may take. A dict is given
      as its (name, key) pairs in iteration order. */
  datatype KeySetting =
    | KeyList(keys: seq<Key>)
    | KeyTuple(keys: seq<Key>)
    | KeyDict(entries: seq<(string, Key)>)
    | SingleKey(key: Key)

  /** A MultiFernet: a non-empty list of keys, the first of which encrypts. */
  type Ring = keys: seq<Key> | |keys| > 0 witness [[]]

  datatype ConfigError = NoKeys

  /** Outcome of a Fernet decryption of a byte string: the plaintext, or
      the InvalidToken exception. */
  datatype Unsealed = Plain(payload: Bytes) | InvalidToken

  /** One Fernet instance per key: `seal(k, p)` is `Fernet(k).encrypt(p)`,
      `open(k, t)` is `Fernet(k).decrypt(t)`, `None` standing for InvalidToken. */
  datatype Cipher = Cipher(seal: (Key, Bytes) -> Bytes, open: (Key, Bytes) -> Option<Bytes>)

  /** A token opens under the key that sealed it, to the sealed plaintext. */
  ghost predicate Sound(c: Cipher) {
    forall k, p :: c.open(k, c.seal(k, p)) == Some(p)
  }

  /** A token opens under no key other than the one that sealed it (what
      Fernet's HMAC provides). */
  ghost predicate KeyBound(c: Cipher) {
    forall k, k', p :: k' != k ==> c.open(k', c.seal(k, p)).None?
  }

  /** The keys taken from the setting, one per configured entry. */
  function KeysFromSetting(setting: KeySetting): (keys: seq<Key>)
    ensures (setting.KeyList? || setting.KeyTuple?) ==> keys == setting.keys
    ensures setting.KeyDict? ==>
      && |keys| == |setting.entries|
      && forall i :: 0 <= i < |keys| ==> keys[i] == setting.entries[i].1
    ensures setting.KeyDict? ==>
      forall k :: k in keys <==> exists name :: (name, k) in setting.entries
    ensures setting.SingleKey? ==> keys == [setting.key]
  {
    match setting
    case KeyList(ks) => ks
    case KeyTuple(ks) => ks
    case KeyDict(entries) =>
      var ks := seq(|entries|, i requires 0 <= i < |entries| => entries[i].1);
      assert forall k :: k in ks <==> exists name :: (name, k) in entries by {
        forall k | k in ks ensures exists name :: (name, k) in entries {
          var i :| 0 <= i < |ks| && ks[i] == k;
          assert (entries[i].0, k) == entries[i];
        }
        forall k | (exists name :: (name, k) in entries) ensures k in ks {
          var name :| (name, k) in entries;
          var i :| 0 <= i < |entries| && entries[i] == (name, k);
          assert ks[i] == k;
        }
      }
      ks
    case SingleKey(k) => [k]
  }

  /** `MultiFernet(keys)`: refuses an empty key list. */
  function MakeRing(setting: KeySetting): (r: Result<Ring, ConfigError>)
    ensures r.Err? <==> |KeysFromSetting(setting)| == 0
    ensures r.Ok? ==> r.value == KeysFromSetting(setting)
    ensures setting.SingleKey? ==> r == Ok([setting.key])
  {
    var keys := KeysFromSetting(setting);
    if |keys| == 0 then Err(NoKeys) else Ok(keys)
  }

  /** `MultiFernet.encrypt`: the first key seals. */
  function Encrypt(c: Cipher, ring: Ring, p: Bytes): Bytes {
    c.seal(ring[0], p)
  }

  /** `MultiFernet.decrypt`: the first key, in ring order, that opens the
      token gives the plaintext; InvalidToken when none does. */
  function TryKeys(c: Cipher, keys: seq<Key>, t: Bytes): (r: Unsealed)
    ensures r.InvalidToken? <==> forall i :: 0 <= i < |keys| ==> c.open(keys[i], t).None?
    ensures r.Plain? ==>
      exists i :: 0 <= i < |keys| && c.open(keys[i], t) == Some(r.payload)
        && forall j :: 0 <= j < i ==> c.open(keys[j], t).None?
  {
    if |keys| == 0 then InvalidToken
    else match c.open(keys[0], t)
      case Some(p) => Plain(p)
      case None =>
        var r := TryKeys(c, keys[1..], t);
        assert forall i :: 1 <= i < |keys| ==> keys[i] == keys[1..][i - 1];
        if r.Plain? then
          var i :| 0 <= i < |keys[1..]| && c.open(keys[1..][i], t) == Some(r.payload)
            && forall j :: 0 <= j < i ==> c.open(keys[1..][j], t).None?;
          assert c.open(keys[i + 1], t) == Some(r.payload);
          r
        else r
  }

  function Decrypt(c: Cipher, ring: Ring, t: Bytes): Unsealed {
    TryKeys(c, ring, t)
  }

  /** The encrypter and decrypter functions the walkers are handed. */
  function Encrypter(c: Cipher, ring: Ring): Bytes -> Bytes {
    p => Encrypt(c, ring, p)
  }

  function Decrypter(c: Cipher, ring: Ring): Bytes -> Unsealed {
    t => Decrypt(c, ring, t)
  }

  /** `dec` undoes `enc` on every payload. */
  ghost predicate Inverts(enc: Bytes -> Bytes, dec: Bytes -> Unsealed) {
    forall p :: dec(enc(p)) == Plain(p)
  }

  /** What the ring encrypts, the ring decrypts, whatever the other keys. */
  lemma RingInverts(c: Cipher, ring: Ring)
    requires Sound(c)
    ensures Inverts(Encrypter(c, ring), Decrypter(c, ring))
  {
  }

  /** Key rotation: a token sealed under any key still in the ring, active
      or demoted, decrypts to its plaintext. */
  lemma RotatedKeyDecrypts(c: Cipher, keys: seq<Key>, k: Key, p: Bytes)
    requires Sound(c) && KeyBound(c)
    requires k in keys
    ensures TryKeys(c, keys, c.seal(k, p)) == Plain(p)
  {
  }

  /** A token sealed under a key that has left the ring is rejected. */
  lemma RetiredKeyRejected(c: Cipher, keys: seq<Key>, k: Key, p: Bytes)
    requires KeyBound(c)
    requires k !in keys
    ensures TryKeys(c, keys, c.seal(k, p)) == InvalidToken
  {
  }
}
