/** The canonical encoding of JSON parameters (src/record.rs). */
module Json {
  import opened Base
  import opened Bytes
  import opened Serialization
  import Text

  /** A number is its printed text; an object is its map of fields. */
  datatype Value =
    | Null
    | Bool(value: bool)
    | Number(text: string)
    | String(content: string)
    | Array(items: seq<Value>)
    | Object(fields: map<string, Value>)

  // ----- What is written -----

  ghost function Encoded(v: Value): seq<byte>
    decreases v
  {
    match v
    case Null => [0]
    case Bool(b) => [1] + Flag(b)
    case Number(text) => [2] + Str(text)
    case String(s) => [3] + Str(s)
    case Array(items) => [4] + (Word(|items|) + ItemsFrom(v, 0))
    case Object(fields) => [5] + (Word(|fields|) + FieldsFrom(v, 0))
  }

  ghost function ItemsFrom(v: Value, i: nat): seq<byte>
    requires v.Array? && i <= |v.items|
    decreases v, |v.items| - i
  {
    if i == |v.items| then [] else Encoded(v.items[i]) + ItemsFrom(v, i + 1)
  }

  ghost function Names(v: Value): (names: seq<string>)
    requires v.Object?
    ensures |names| == |v.fields| && forall k :: k in names <==> k in v.fields
  {
    KeysAreKeys(v.fields);
    Text.SortedKeys(v.fields.Keys)
  }

  ghost function FieldsFrom(v: Value, i: nat): seq<byte>
    requires v.Object? && i <= |v.fields|
    decreases v, |v.fields| - i
  {
    if i == |v.fields| then []
    else
      var name := Names(v)[i];
      assert name in Names(v);
      (Str(name) + Encoded(v.fields[name])) + FieldsFrom(v, i + 1)
  }

  // ----- The writer -----

  lemma Regrouped(start: seq<byte>, next: seq<byte>, rest: seq<byte>)
    ensures (start + next) + rest == start + (next + rest)
  {
  }

  /** Appends the encoding of a value; objects are written in the order of their sorted keys. */
  method Encode(buf: ByteBuffer, v: Value)
    modifies buf
    ensures buf.data == old(buf.data) + Encoded(v)
    decreases v
  {
    ghost var start := buf.data;
    match v {
      case Null =>
        buf.Extend([0]);
      case Bool(b) =>
        buf.Extend([1]);
        buf.WriteBool(b);
        Regrouped(start, [1], Flag(b));
      case Number(text) =>
        buf.Extend([2]);
        buf.WriteStr(text);
        Regrouped(start, [2], Str(text));
      case String(s) =>
        buf.Extend([3]);
        buf.WriteStr(s);
        Regrouped(start, [3], Str(s));
      case Array(items) =>
        EncodeItems(buf, v);
      case Object(fields) =>
        EncodeFields(buf, v);
    }
  }

  method EncodeItems(buf: ByteBuffer, v: Value)
    requires v.Array?
    modifies buf
    ensures buf.data == old(buf.data) + Encoded(v)
    decreases v, 0
  {
    ghost var start := buf.data;
    buf.Extend([4]);
    buf.WriteU64(|v.items|);
    Regrouped(start, [4], Word(|v.items|));
    for i := 0 to |v.items|
      invariant buf.data + ItemsFrom(v, i) == start + Encoded(v)
    {
      ghost var before := buf.data;
      Encode(buf, v.items[i]);
      Regrouped(before, Encoded(v.items[i]), ItemsFrom(v, i + 1));
    }
  }

  lemma ObjectEncoded(v: Value)
    requires v.Object?
    ensures Encoded(v) == ([5] + Word(|v.fields|)) + FieldsFrom(v, 0)
    ensures FieldsFrom(v, |v.fields|) == []
  {
    hide Word;
    Regrouped([5], Word(|v.fields|), FieldsFrom(v, 0));
  }

  /** One turn of the loop over the fields of an object. */
  lemma FieldWritten(v: Value, i: nat, before: seq<byte>, name: string)
    requires v.Object? && i < |v.fields| && Names(v)[i] == name
    ensures name in v.fields
    ensures ((before + Str(name)) + Encoded(v.fields[name])) + FieldsFrom(v, i + 1) == before + FieldsFrom(v, i)
  {
    hide Encoded, Str, FieldsFrom;
    FieldsStep(v, i);
    Regrouped(before, Str(name), Encoded(v.fields[name]));
    Regrouped(before, Str(name) + Encoded(v.fields[name]), FieldsFrom(v, i + 1));
  }

  method EncodeFields(buf: ByteBuffer, v: Value)
    requires v.Object?
    modifies buf
    ensures buf.data == old(buf.data) + Encoded(v)
    decreases v, 0
  {
    hide Encoded, FieldsFrom, Str, Word;
    ghost var start := buf.data;
    var names := Text.KeysInOrder(v.fields.Keys);
    assert names == Names(v);
    ObjectEncoded(v);
    buf.Extend([5]);
    buf.WriteU64(|names|);
    Regrouped(start, [5], Word(|v.fields|));
    Regrouped(start, [5] + Word(|v.fields|), FieldsFrom(v, 0));
    for i := 0 to |names|
      invariant buf.data + FieldsFrom(v, i) == start + Encoded(v)
    {
      FieldWritten(v, i, buf.data, names[i]);
      buf.WriteStr(names[i]);
      Encode(buf, v.fields[names[i]]);
    }
    assert buf.data + [] == buf.data;
  }

  /** The canonical bytes of the parameters of a record. */
  method CanonicalJsonBytes(v: Value) returns (bytes: seq<byte>)
    ensures bytes == Encoded(v)
  {
    var buf := new ByteBuffer();
    Encode(buf, v);
    FromEmpty(Encoded(v));
    bytes := buf.data;
  }

  // ----- Unique decodability -----

  /** All lengths inside a value fit their prefixes. */
  ghost predicate Fits(v: Value)
    decreases v
  {
    match v
    case Null => true
    case Bool(_) => true
    case Number(text) => StrFits(text)
    case String(s) => StrFits(s)
    case Array(items) => FitsPrefix(|items|) && forall i :: 0 <= i < |items| ==> Fits(items[i])
    case Object(fields) => FitsPrefix(|fields|) && forall k :: k in fields ==> StrFits(k) && Fits(fields[k])
  }

  /** Encoded values start with their kind. */
  function Kind(v: Value): byte {
    match v
    case Null => 0
    case Bool(_) => 1
    case Number(_) => 2
    case String(_) => 3
    case Array(_) => 4
    case Object(_) => 5
  }

  ghost function Body(v: Value): seq<byte> {
    match v
    case Null => []
    case Bool(b) => Flag(b)
    case Number(text) => Str(text)
    case String(s) => Str(s)
    case Array(items) => Word(|items|) + ItemsFrom(v, 0)
    case Object(fields) => Word(|fields|) + FieldsFrom(v, 0)
  }

  lemma KindFirst(v: Value, r: seq<byte>)
    ensures Encoded(v) + r == [Kind(v)] + (Body(v) + r)
  {
    assert Encoded(v) == [Kind(v)] + Body(v);
    Regrouped([Kind(v)], Body(v), r);
  }

  lemma KindSeparates(v: Value, w: Value, r: seq<byte>, s: seq<byte>)
    requires Encoded(v) + r == Encoded(w) + s
    ensures Kind(v) == Kind(w) && Body(v) + r == Body(w) + s
  {
    hide Encoded, Body, Kind;
    KindFirst(v, r);
    KindFirst(w, s);
    SplitAt(1, [Kind(v)], Body(v) + r, [Kind(w)], Body(w) + s);
    assert [Kind(v)][0] == [Kind(w)][0];
  }

  /** No stream starts with the encodings of two values, at any depth of nesting. */
  lemma {:induction false} JsonSeparates(v: Value, w: Value, r: seq<byte>, s: seq<byte>)
    requires Fits(v) && Fits(w) && Encoded(v) + r == Encoded(w) + s
    ensures v == w && r == s
    decreases v
  {
    hide Encoded, Word, Str, ItemsFrom, FieldsFrom, StrFits;
    KindSeparates(v, w, r, s);
    match v
    case Null =>
      FromEmpty(r);
      FromEmpty(s);
    case Bool(b) => FlagSeparates(b, w.value, r, s);
    case Number(text) => StrSeparates(text, w.text, r, s);
    case String(c) => StrSeparates(c, w.content, r, s);
    case Array(items) =>
      Regrouped(Word(|items|), ItemsFrom(v, 0), r);
      Regrouped(Word(|w.items|), ItemsFrom(w, 0), s);
      WordSeparates(|items|, |w.items|, ItemsFrom(v, 0) + r, ItemsFrom(w, 0) + s);
      ItemsSeparateFrom(v, w, 0, r, s);
      assert items[0..] == items && w.items[0..] == w.items;
    case Object(fields) =>
      Regrouped(Word(|fields|), FieldsFrom(v, 0), r);
      Regrouped(Word(|w.fields|), FieldsFrom(w, 0), s);
      WordSeparates(|fields|, |w.fields|, FieldsFrom(v, 0) + r, FieldsFrom(w, 0) + s);
      FieldsSeparateFrom(v, w, 0, r, s);
      SameFields(v, w);
  }

  lemma {:induction false} ItemsSeparateFrom(v: Value, w: Value, i: nat, r: seq<byte>, s: seq<byte>)
    requires v.Array? && w.Array? && Fits(v) && Fits(w) && i <= |v.items| == |w.items|
    requires ItemsFrom(v, i) + r == ItemsFrom(w, i) + s
    ensures v.items[i..] == w.items[i..] && r == s
    decreases v, |v.items| - i
  {
    hide Encoded;
    if i == |v.items| {
      FromEmpty(r);
      FromEmpty(s);
    } else {
      Regrouped(Encoded(v.items[i]), ItemsFrom(v, i + 1), r);
      Regrouped(Encoded(w.items[i]), ItemsFrom(w, i + 1), s);
      JsonSeparates(v.items[i], w.items[i], ItemsFrom(v, i + 1) + r, ItemsFrom(w, i + 1) + s);
      ItemsSeparateFrom(v, w, i + 1, r, s);
      assert v.items[i..] == [v.items[i]] + v.items[i + 1..] && w.items[i..] == [w.items[i]] + w.items[i + 1..];
    }
  }

  /** Both objects have the same names and values from place `i` on. */
  ghost predicate AgreeFrom(v: Value, w: Value, i: nat)
    requires v.Object? && w.Object? && |v.fields| == |w.fields|
  {
    forall j :: i <= j < |v.fields| ==>
      Names(v)[j] == Names(w)[j] && FieldAt(v, j) == FieldAt(w, j)
  }

  ghost function FieldAt(v: Value, j: nat): Value
    requires v.Object? && j < |v.fields|
  {
    assert Names(v)[j] in Names(v);
    v.fields[Names(v)[j]]
  }

  /** One field: its name and its value in front of a stream. */
  lemma FieldSeparates(m: string, x: Value, n: string, y: Value, p: seq<byte>, q: seq<byte>, more: seq<byte>,
                       rest: seq<byte>)
    requires StrFits(m) && StrFits(n)
    requires (Str(m) + Encoded(x)) + p + more == (Str(n) + Encoded(y)) + q + rest
    ensures m == n && Encoded(x) + (p + more) == Encoded(y) + (q + rest)
  {
    hide Encoded, Str;
    Regrouped(Str(m) + Encoded(x), p, more);
    Regrouped(Str(n) + Encoded(y), q, rest);
    Regrouped(Str(m), Encoded(x), p + more);
    Regrouped(Str(n), Encoded(y), q + rest);
    StrSeparates(m, n, Encoded(x) + (p + more), Encoded(y) + (q + rest));
  }

  lemma FieldsStep(v: Value, i: nat)
    requires v.Object? && i < |v.fields|
    ensures Names(v)[i] in v.fields && FieldAt(v, i) == v.fields[Names(v)[i]]
    ensures FieldsFrom(v, i) == (Str(Names(v)[i]) + Encoded(FieldAt(v, i))) + FieldsFrom(v, i + 1)
    ensures Fits(v) ==> StrFits(Names(v)[i]) && Fits(FieldAt(v, i))
  {
    hide Encoded, Str, StrFits;
    assert Names(v)[i] in Names(v);
  }

  lemma {:induction false} FieldsSeparateFrom(v: Value, w: Value, i: nat, r: seq<byte>, s: seq<byte>)
    requires v.Object? && w.Object? && Fits(v) && Fits(w) && i <= |v.fields| == |w.fields|
    requires FieldsFrom(v, i) + r == FieldsFrom(w, i) + s
    ensures AgreeFrom(v, w, i) && r == s
    decreases v, |v.fields| - i
  {
    hide Encoded, StrFits, Str, Fits, FieldAt;
    if i == |v.fields| {
      FromEmpty(r);
      FromEmpty(s);
    } else {
      FieldsStep(v, i);
      FieldsStep(w, i);
      var x, y, p, q := FieldAt(v, i), FieldAt(w, i), FieldsFrom(v, i + 1), FieldsFrom(w, i + 1);
      FieldSeparates(Names(v)[i], x, Names(w)[i], y, p, q, r, s);
      JsonSeparates(x, y, p + r, q + s);
      FieldsSeparateFrom(v, w, i + 1, r, s);
    }
  }

  lemma SameFields(v: Value, w: Value)
    requires v.Object? && w.Object? && |v.fields| == |w.fields| && AgreeFrom(v, w, 0)
    ensures v == w
  {
    assert |Names(v)| == |v.fields| == |Names(w)|;
    forall k ensures k in v.fields <==> k in w.fields {
      if k in v.fields { var j :| 0 <= j < |Names(v)| && Names(v)[j] == k; assert Names(w)[j] in Names(w); }
      if k in w.fields { var j :| 0 <= j < |Names(w)| && Names(w)[j] == k; assert Names(v)[j] in Names(v); }
    }
    forall k | k in v.fields ensures v.fields[k] == w.fields[k] {
      var j :| 0 <= j < |Names(v)| && Names(v)[j] == k;
      assert FieldAt(v, j) == FieldAt(w, j);
    }
    assert v.fields == w.fields;
  }
}
