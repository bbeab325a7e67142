/** Python values as the tree walkers of django_encrypted_json/utils.py see them.

    The walkers dispatch on the Python type of a value: lists, tuples and sets
    are sequences, dicts are mappings, and everything else is a scalar leaf.
    Python 2 has two string types and the decryption path treats them
    differently, so byte strings (`str`) and text (`unicode`) are distinct
    constructors here. Floats, dates and other objects are not modelled.
 */
module Values {

  /** A byte of a Python 2 `str`. */
  type Byte = x: int | 0 <= x < 256

  type Bytes = seq<Byte>

  datatype Option<+T> = None | Some(value: T)

  datatype Result<+T, +E> = Ok(value: T) | Err(error: E)

  /** Which Python sequence type a `Seq` value came from. */
  datatype SeqKind = ListKind | TupleKind | SetKind

  /** A JSON-like Python value. A dict is the sequence of its (key, value)
      pairs in iteration order; a set is the sequence of its elements in
      iteration order. */
  datatype Value =
    | Null                                  // None
    | Bool(b: bool)
    | Int(i: int)
    | Text(s: string)                       // unicode
    | Binary(bytes: Bytes)                  // str, i.e. bytes
    | Seq(kind: SeqKind, items: seq<Value>) // list, tuple or set
    | Obj(fields: seq<Field>)               // dict

  datatype Field = Field(key: string, val: Value)

  predicate IsScalar(v: Value) {
    !v.Seq? && !v.Obj?
  }

  function Keys(fields: seq<Field>): (ks: seq<string>)
    ensures |ks| == |fields|
  {
    seq(|fields|, i requires 0 <= i < |fields| => fields[i].key)
  }

  /** Python's `d[key]` on a dict given as its pairs: the first pair with that key. */
  function Lookup(fields: seq<Field>, key: string): (r: Option<Value>)
    ensures r.Some? <==> key in Keys(fields)
  {
    if |fields| == 0 then None
    else
      assert Keys(fields) == [fields[0].key] + Keys(fields[1..]);
      if fields[0].key == key then Some(fields[0].val)
      else Lookup(fields[1..], key)
  }

  /** The first position of `key` among a dict's pairs is where `Lookup` reads. */
  lemma {:induction false} LookupFirst(fields: seq<Field>, key: string) returns (i: nat)
    requires key in Keys(fields)
    ensures i < |fields| && fields[i].key == key
    ensures forall j :: 0 <= j < i ==> fields[j].key != key
    ensures Lookup(fields, key) == Some(fields[i].val)
  {
    assert Keys(fields) == [fields[0].key] + Keys(fields[1..]);
    if fields[0].key == key {
      i := 0;
    } else {
      var i' := LookupFirst(fields[1..], key);
      i := i' + 1;
    }
  }

  lemma {:induction false} LookupAt(fields: seq<Field>, key: string, i: nat)
    requires i < |fields| && fields[i].key == key
    requires forall j :: 0 <= j < i ==> fields[j].key != key
    ensures Lookup(fields, key) == Some(fields[i].val)
  {
    if i > 0 {
      LookupAt(fields[1..], key, i - 1);
    }
  }

  function Concat<T>(ss: seq<seq<T>>): seq<T> {
    if |ss| == 0 then [] else ss[0] + Concat(ss[1..])
  }

  lemma {:induction false} ConcatMember<T>(ss: seq<seq<T>>, x: T)
    ensures x in Concat(ss) <==> exists i :: 0 <= i < |ss| && x in ss[i]
  {
    if |ss| > 0 {
      ConcatMember(ss[1..], x);
      if x in Concat(ss) && x !in ss[0] {
        var j :| 0 <= j < |ss[1..]| && x in ss[1..][j];
        assert x in ss[j + 1];
      }
      if x !in ss[0] && exists i :: 0 <= i < |ss| && x in ss[i] {
        var i :| 0 <= i < |ss| && x in ss[i];
        assert x in ss[1..][i - 1];
      }
    }
  }

  /** The scalar leaves of `v`, left to right, that are not below a mapping
      key listed in `skip`. With an empty `skip` these are all the leaves. */
  function Exposed(v: Value, skip: seq<string>): seq<Value>
  {
    match v
    case Seq(_, items) =>
      Concat(seq(|items|, i requires 0 <= i < |items| => Exposed(items[i], skip)))
    case Obj(fields) =>
      Concat(seq(|fields|, i requires 0 <= i < |fields| =>
        if fields[i].key in skip then [] else Exposed(fields[i].val, skip)))
    case _ => [v]
  }

  function Leaves(v: Value): seq<Value> {
    Exposed(v, [])
  }

  /** The container skeleton of `a` and `b` agree: sequences of equal
      length (of any sequence type), dicts with the same keys in the same
      order, scalars against scalars, pairwise all the way down. */
  ghost predicate SameShape(a: Value, b: Value)
    decreases a
  {
    match a
    case Seq(_, items) =>
      && b.Seq? && |b.items| == |items|
      && forall i :: 0 <= i < |items| ==> SameShape(items[i], b.items[i])
    case Obj(fields) =>
      && b.Obj? && Keys(b.fields) == Keys(fields)
      && forall i :: 0 <= i < |fields| ==> SameShape(fields[i].val, b.fields[i].val)
    case _ => IsScalar(b)
  }

  lemma {:induction false} SameShapeReflexive(v: Value)
    ensures SameShape(v, v)
  {
    match v
    case Seq(_, items) =>
      forall i | 0 <= i < |items| ensures SameShape(items[i], items[i]) {
        SameShapeReflexive(items[i]);
      }
    case Obj(fields) =>
      forall i | 0 <= i < |fields| ensures SameShape(fields[i].val, fields[i].val) {
        SameShapeReflexive(fields[i].val);
      }
    case _ =>
  }

  /** No byte string anywhere in `v`: a value that JSON text can describe. */
  predicate IsPlain(v: Value)
    decreases v
  {
    match v
    case Binary(_) => false
    case Seq(_, items) => forall i :: 0 <= i < |items| ==> IsPlain(items[i])
    case Obj(fields) => forall i :: 0 <= i < |fields| ==> IsPlain(fields[i].val)
    case _ => true
  }

  /** No string of either kind anywhere in `v`: only numbers, booleans and None. */
  predicate StringFree(v: Value)
    decreases v
  {
    match v
    case Text(_) => false
    case Binary(_) => false
    case Seq(_, items) => forall i :: 0 <= i < |items| ==> StringFree(items[i])
    case Obj(fields) => forall i :: 0 <= i < |fields| ==> StringFree(fields[i].val)
    case _ => true
  }

  /** `v` with every tuple and set turned into a list, which is what a
      value looks like after a walker has rebuilt it. */
  function Canon(v: Value): Value
    decreases v
  {
    match v
    case Seq(_, items) =>
      Seq(ListKind, seq(|items|, i requires 0 <= i < |items| => Canon(items[i])))
    case Obj(fields) =>
      Obj(seq(|fields|, i requires 0 <= i < |fields| => Field(fields[i].key, Canon(fields[i].val))))
    case _ => v
  }

  /** Every sequence in `v` is a list. */
  predicate ListsOnly(v: Value)
    decreases v
  {
    match v
    case Seq(kind, items) => kind == ListKind && forall i :: 0 <= i < |items| ==> ListsOnly(items[i])
    case Obj(fields) => forall i :: 0 <= i < |fields| ==> ListsOnly(fields[i].val)
    case _ => true
  }

  /** `Canon` changes nothing but tuples and sets. */
  lemma {:induction false} CanonKeepsLists(v: Value)
    requires ListsOnly(v)
    ensures Canon(v) == v
    decreases v
  {
    match v
    case Seq(_, items) =>
      forall i | 0 <= i < |items| ensures Canon(items[i]) == items[i] {
        CanonKeepsLists(items[i]);
      }
      assert Canon(v).items == items;
    case Obj(fields) =>
      forall i | 0 <= i < |fields| ensures Canon(fields[i].val) == fields[i].val {
        CanonKeepsLists(fields[i].val);
      }
      assert Canon(v).fields == fields;
    case _ =>
  }

  /** Python's `s.encode('latin-1')`: fails (UnicodeEncodeError) when a
      character lies above U+00FF. */
  function Latin1Encode(s: string): (r: Option<Bytes>)
    ensures r.Some? <==> forall i :: 0 <= i < |s| ==> s[i] as int < 256
    ensures r.Some? ==> |r.value| == |s| && forall i :: 0 <= i < |s| ==> r.value[i] == s[i] as int
  {
    if forall i :: 0 <= i < |s| ==> s[i] as int < 256 then
      Some(seq(|s|, i requires 0 <= i < |s| => s[i] as int as Byte))
    else
      None
  }

  /** Decoding bytes one character per byte. */
  function Latin1Decode(b: Bytes): (s: string)
    ensures |s| == |b|
  {
    seq(|b|, i requires 0 <= i < |b| => b[i] as char)
  }

  lemma Latin1RoundTrip(b: Bytes)
    ensures Latin1Encode(Latin1Decode(b)) == Some(b)
  {
    var s := Latin1Decode(b);
    assert forall i :: 0 <= i < |s| ==> s[i] as int == b[i];
    assert Latin1Encode(s).value == b;
  }

  /** What the JSON column gives back for a stored value: byte strings come
      back as text (Fernet tokens are ASCII, where UTF-8 and latin-1
      decoding agree), tuples and sets come back as lists. */
  function Stored(v: Value): Value
    decreases v
  {
    match v
    case Binary(b) => Text(Latin1Decode(b))
    case Seq(_, items) =>
      Seq(ListKind, seq(|items|, i requires 0 <= i < |items| => Stored(items[i])))
    case Obj(fields) =>
      Obj(seq(|fields|, i requires 0 <= i < |fields| => Field(fields[i].key, Stored(fields[i].val))))
    case _ => v
  }

  /** Every byte lies below 128. */
  predicate IsAscii(b: Bytes) {
    forall i :: 0 <= i < |b| ==> b[i] < 128
  }

  /** Every byte string in `v` is ASCII, as a Python 2 literal such as
      `'more'` is. */
  predicate AsciiStrings(v: Value)
    decreases v
  {
    match v
    case Binary(b) => IsAscii(b)
    case Seq(_, items) => forall i :: 0 <= i < |items| ==> AsciiStrings(items[i])
    case Obj(fields) => forall i :: 0 <= i < |fields| ==> AsciiStrings(fields[i].val)
    case _ => true
  }

  /** Python 2 compares a byte string with text by decoding the bytes as
      ASCII first, so `'more' == u'more'`. */
  predicate SameString(b: Bytes, s: string) {
    IsAscii(b) && s == Latin1Decode(b)
  }

  /** Values that Python 2's `==` finds equal, with dict pairs compared in
      their given order: equal scalars, a byte string and the text it
      decodes to, sequences of the same type that are equal elementwise,
      dicts with the same keys whose values are equal. */
  predicate Py2Equal(a: Value, b: Value)
    decreases a
  {
    match a
    case Seq(kind, items) =>
      && b.Seq? && b.kind == kind && |b.items| == |items|
      && forall i :: 0 <= i < |items| ==> Py2Equal(items[i], b.items[i])
    case Obj(fields) =>
      && b.Obj? && Keys(b.fields) == Keys(fields)
      && forall i :: 0 <= i < |fields| ==> Py2Equal(fields[i].val, b.fields[i].val)
    case Binary(bs) => b == a || (b.Text? && SameString(bs, b.s))
    case Text(s) => b == a || (b.Binary? && SameString(b.bytes, s))
    case _ => b == a
  }

  lemma {:induction false} StringFreeIsPlain(v: Value)
    requires StringFree(v)
    ensures IsPlain(v)
    decreases v
  {
    match v
    case Seq(_, items) =>
      forall i | 0 <= i < |items| ensures IsPlain(items[i]) {
        StringFreeIsPlain(items[i]);
      }
    case Obj(fields) =>
      forall i | 0 <= i < |fields| ensures IsPlain(fields[i].val) {
        StringFreeIsPlain(fields[i].val);
      }
    case _ =>
  }

  /** Without byte strings, the column's copy differs from the value only
      in that tuples and sets are lists. */
  lemma {:induction false} StoredPlainIsCanon(v: Value)
    requires IsPlain(v)
    ensures Stored(v) == Canon(v)
    decreases v
  {
    match v
    case Seq(_, items) =>
      forall i | 0 <= i < |items| ensures Stored(items[i]) == Canon(items[i]) {
        StoredPlainIsCanon(items[i]);
      }
      assert Stored(v).items == Canon(v).items;
    case Obj(fields) =>
      forall i | 0 <= i < |fields| ensures Stored(fields[i].val) == Canon(fields[i].val) {
        StoredPlainIsCanon(fields[i].val);
      }
      assert Stored(v).fields == Canon(v).fields;
    case _ =>
  }

  /** The column's copy of a value with ASCII byte strings is equal, in
      Python 2, to the value with tuples and sets as lists: each byte
      string has become the text it decodes to. */
  lemma {:induction false} StoredPy2EqualsCanon(v: Value)
    requires AsciiStrings(v)
    ensures Py2Equal(Stored(v), Canon(v))
    decreases v
  {
    match v
    case Seq(_, items) =>
      forall i | 0 <= i < |items| ensures Py2Equal(Stored(items[i]), Canon(items[i])) {
        StoredPy2EqualsCanon(items[i]);
      }
    case Obj(fields) =>
      forall i | 0 <= i < |fields| ensures Py2Equal(Stored(fields[i].val), Canon(fields[i].val)) {
        StoredPy2EqualsCanon(fields[i].val);
      }
      assert Keys(Stored(v).fields) == Keys(fields);
      assert Keys(Canon(v).fields) == Keys(fields);
    case Binary(b) =>
      assert Stored(v) == Text(Latin1Decode(b));
    case _ =>
  }
}
