/**
 A text form for configuration trees and the proof that it can be read back. It is simpler than JSON; it shows that
 a machine which writes every tree so that it parses again exists.
 */
module TextForm {
  import opened Wrappers
  import opened Sorting
  import opened ConfigTree
  import opened Hosts

  function WriteNat(n: nat): string {
    if n == 0 then ";" else "1" + WriteNat(n - 1)
  }

  function WriteInt(n: int): string {
    if n < 0 then "-" + WriteNat(-n) else "+" + WriteNat(n)
  }

  function WriteString(s: string): string {
    WriteNat(|s|) + s
  }

  function WriteDouble(d: Double): string {
    WriteInt(d.mantissa) + WriteInt(d.exponent)
  }

  function Keys(fields: map<string, Json>): (keys: seq<string>)
    ensures |keys| == |fields.Keys| && forall k :: k in keys <==> k in fields
  {
    BeforeOrders(fields.Keys);
    SortedBy(fields.Keys, Before)
  }

  function Write(v: Json): string
    decreases v, 1
  {
    match v
    case Null => "n"
    case Bool(b) => if b then "t" else "f"
    case Int(n) => "i" + WriteInt(n)
    case Float(d) => "d" + WriteDouble(d)
    case Str(s) => "s" + WriteString(s)
    case Arr(items) => "a" + WriteNat(|items|) + WriteItems(items)
    case Obj(fields) => "o" + WriteNat(|Keys(fields)|) + WriteFields(v, Keys(fields))
  }

  function WriteItems(items: seq<Json>): string
    decreases items, 0
  {
    if items == [] then "" else Write(items[0]) + WriteItems(items[1..])
  }

  function WriteFields(parent: Json, keys: seq<string>): string
    requires parent.Obj? && forall k | k in keys :: k in parent.fields
    decreases parent, 0, |keys|
  {
    if keys == [] then ""
    else WriteString(keys[0]) + Write(parent.fields[keys[0]]) + WriteFields(parent, keys[1..])
  }

  function ReadNat(s: string): (r: Option<(nat, string)>)
    ensures r.Some? ==> |r.value.1| < |s|
  {
    if s == "" then None
    else if s[0] == ';' then Some((0, s[1..]))
    else if s[0] != '1' then None
    else match ReadNat(s[1..])
      case None => None
      case Some((n, rest)) => Some((n + 1, rest))
  }

  function ReadInt(s: string): (r: Option<(int, string)>)
    ensures r.Some? ==> |r.value.1| < |s|
  {
    if s == "" then None
    else match ReadNat(s[1..])
      case None => None
      case Some((n, rest)) =>
        var magnitude: int := n;
        Some((if s[0] == '-' then -magnitude else magnitude, rest))
  }

  function ReadString(s: string): (r: Option<(string, string)>)
    ensures r.Some? ==> |r.value.1| < |s|
  {
    match ReadNat(s)
    case None => None
    case Some((n, rest)) => if n <= |rest| then Some((rest[..n], rest[n..])) else None
  }

  function ReadDouble(s: string): (r: Option<(Json, string)>)
    ensures r.Some? ==> |r.value.1| < |s|
  {
    match ReadInt(s)
    case None => None
    case Some((m, rest)) =>
      match ReadInt(rest)
      case None => None
      case Some((e, end)) => if IsDouble(Binary(m, e)) then Some((Float(Binary(m, e)), end)) else None
  }

  function Read(s: string): (r: Option<(Json, string)>)
    ensures r.Some? ==> |r.value.1| < |s|
    decreases |s|, 0
  {
    if s == "" then None
    else
      var rest := s[1..];
      match s[0]
      case 'n' => Some((Null, rest))
      case 't' => Some((Bool(true), rest))
      case 'f' => Some((Bool(false), rest))
      case 'i' => (match ReadInt(rest) case None => None case Some((n, end)) => Some((Int(n), end)))
      case 'd' => ReadDouble(rest)
      case 's' => (match ReadString(rest) case None => None case Some((t, end)) => Some((Str(t), end)))
      case 'a' =>
        (match ReadNat(rest)
         case None => None
         case Some((n, more)) =>
           match ReadItems(n, more) case None => None case Some((items, end)) => Some((Arr(items), end)))
      case 'o' =>
        (match ReadNat(rest)
         case None => None
         case Some((n, more)) =>
           match ReadFields(n, more) case None => None case Some((fields, end)) => Some((Obj(fields), end)))
      case _ => None
  }

  function ReadItems(n: nat, s: string): (r: Option<(seq<Json>, string)>)
    ensures r.Some? ==> |r.value.1| <= |s|
    decreases |s|, 1
  {
    if n == 0 then Some(([], s))
    else match Read(s)
      case None => None
      case Some((v, rest)) =>
        match ReadItems(n - 1, rest)
        case None => None
        case Some((vs, end)) => Some(([v] + vs, end))
  }

  function ReadFields(n: nat, s: string): (r: Option<(map<string, Json>, string)>)
    ensures r.Some? ==> |r.value.1| <= |s|
    decreases |s|, 1
  {
    if n == 0 then Some((map[], s))
    else match ReadString(s)
      case None => None
      case Some((k, rest)) =>
        match Read(rest)
        case None => None
        case Some((v, more)) =>
          match ReadFields(n - 1, more)
          case None => None
          case Some((fields, end)) => Some((fields[k := v], end))
  }

  lemma {:induction false} NatReadsBack(n: nat, rest: string)
    ensures ReadNat(WriteNat(n) + rest) == Some((n, rest))
  {
    var s := WriteNat(n) + rest;
    if n == 0 {
      assert s[1..] == rest;
    } else {
      assert s[1..] == WriteNat(n - 1) + rest;
      NatReadsBack(n - 1, rest);
    }
  }

  lemma IntReadsBack(n: int, rest: string)
    ensures ReadInt(WriteInt(n) + rest) == Some((n, rest))
  {
    var m := if n < 0 then -n else n;
    assert (WriteInt(n) + rest)[1..] == WriteNat(m) + rest;
    NatReadsBack(m, rest);
  }

  lemma StringReadsBack(t: string, rest: string)
    ensures ReadString(WriteString(t) + rest) == Some((t, rest))
  {
    assert WriteString(t) + rest == WriteNat(|t|) + (t + rest);
    NatReadsBack(|t|, t + rest);
    assert (t + rest)[..|t|] == t && (t + rest)[|t|..] == rest;
  }

  lemma DoubleReadsBack(d: Double, rest: string)
    ensures ReadDouble(WriteDouble(d) + rest) == Some((Float(d), rest))
  {
    assert WriteDouble(d) + rest == WriteInt(d.mantissa) + (WriteInt(d.exponent) + rest);
    IntReadsBack(d.mantissa, WriteInt(d.exponent) + rest);
    IntReadsBack(d.exponent, rest);
  }

  lemma ScalarRead(s: string, v: Json, rest: string)
    requires s != "" && s[1..] == rest
    requires (s[0] == 'n' && v == Null) || (s[0] == 't' && v == Bool(true)) || (s[0] == 'f' && v == Bool(false))
    ensures Read(s) == Some((v, rest))
  {
  }

  lemma IntRead(s: string, n: int, rest: string)
    requires s != "" && s[0] == 'i' && ReadInt(s[1..]) == Some((n, rest))
    ensures Read(s) == Some((Int(n), rest))
  {
  }

  lemma FloatRead(s: string, d: Double, rest: string)
    requires s != "" && s[0] == 'd' && ReadDouble(s[1..]) == Some((Float(d), rest))
    ensures Read(s) == Some((Float(d), rest))
  {
  }

  lemma StrRead(s: string, t: string, rest: string)
    requires s != "" && s[0] == 's' && ReadString(s[1..]) == Some((t, rest))
    ensures Read(s) == Some((Str(t), rest))
  {
  }

  lemma ArrayRead(s: string, items: seq<Json>, more: string, rest: string)
    requires s != "" && s[0] == 'a' && ReadNat(s[1..]) == Some((|items|, more))
    requires ReadItems(|items|, more) == Some((items, rest))
    ensures Read(s) == Some((Arr(items), rest))
  {
  }

  lemma ObjectRead(s: string, n: nat, fields: map<string, Json>, more: string, rest: string)
    requires s != "" && s[0] == 'o' && ReadNat(s[1..]) == Some((n, more)) && ReadFields(n, more) == Some((fields, rest))
    ensures Read(s) == Some((Obj(fields), rest))
  {
  }

  lemma IntLeaf(n: int, rest: string)
    ensures Read(Write(Int(n)) + rest) == Some((Int(n), rest))
  {
    var s := "i" + WriteInt(n) + rest;
    assert s[1..] == WriteInt(n) + rest;
    IntReadsBack(n, rest);
    IntRead(s, n, rest);
  }

  lemma FloatLeaf(d: Double, rest: string)
    ensures Read(Write(Float(d)) + rest) == Some((Float(d), rest))
  {
    var s := "d" + WriteDouble(d) + rest;
    assert s[1..] == WriteDouble(d) + rest;
    DoubleReadsBack(d, rest);
    FloatRead(s, d, rest);
  }

  lemma StrLeaf(t: string, rest: string)
    ensures Read(Write(Str(t)) + rest) == Some((Str(t), rest))
  {
    var s := "s" + WriteString(t) + rest;
    assert s[1..] == WriteString(t) + rest;
    StringReadsBack(t, rest);
    StrRead(s, t, rest);
  }

  lemma LeafReadsBack(v: Json, rest: string)
    requires !v.Arr? && !v.Obj?
    ensures Read(Write(v) + rest) == Some((v, rest))
  {
    match v
    case Int(n) => IntLeaf(n, rest);
    case Float(d) => FloatLeaf(d, rest);
    case Str(t) => StrLeaf(t, rest);
    case _ => ScalarRead(Write(v) + rest, v, rest);
  }

  /** Every tree reads back, whatever text follows it. */
  lemma {:induction false} ReadsBack(v: Json, rest: string)
    ensures Read(Write(v) + rest) == Some((v, rest))
    decreases v, 2
  {
    match v
    case Arr(_) => ArrayReadsBack(v, rest);
    case Obj(_) => ObjectReadsBack(v, rest);
    case _ => LeafReadsBack(v, rest);
  }

  lemma {:induction false} ArrayReadsBack(v: Json, rest: string)
    requires v.Arr?
    ensures Read(Write(v) + rest) == Some((v, rest))
    decreases v, 1
  {
    var more := WriteItems(v.items) + rest;
    assert (Write(v) + rest)[1..] == WriteNat(|v.items|) + more;
    NatReadsBack(|v.items|, more);
    ItemsReadBack(v.items, rest);
    ArrayRead(Write(v) + rest, v.items, more, rest);
  }

  lemma {:induction false} ObjectReadsBack(v: Json, rest: string)
    requires v.Obj?
    ensures Read(Write(v) + rest) == Some((v, rest))
    decreases v, 1
  {
    var keys, more := Keys(v.fields), WriteFields(v, Keys(v.fields)) + rest;
    assert (Write(v) + rest)[1..] == WriteNat(|keys|) + more;
    NatReadsBack(|keys|, more);
    FieldsReadBack(v, keys, rest);
    assert FieldsAt(v, keys) == v.fields;
    ObjectRead(Write(v) + rest, |keys|, v.fields, more, rest);
  }

  lemma {:induction false} ItemsReadBack(items: seq<Json>, rest: string)
    ensures ReadItems(|items|, WriteItems(items) + rest) == Some((items, rest))
    decreases items, 0
  {
    if items == [] {
      assert WriteItems(items) + rest == rest;
    } else {
      assert WriteItems(items) + rest == Write(items[0]) + (WriteItems(items[1..]) + rest);
      ReadsBack(items[0], WriteItems(items[1..]) + rest);
      ItemsReadBack(items[1..], rest);
      assert items == [items[0]] + items[1..];
    }
  }

  function FieldsAt(parent: Json, keys: seq<string>): map<string, Json>
    requires parent.Obj? && forall k | k in keys :: k in parent.fields
  {
    map k | k in keys :: parent.fields[k]
  }

  lemma {:induction false} FieldsReadBack(parent: Json, keys: seq<string>, rest: string)
    requires parent.Obj? && forall k | k in keys :: k in parent.fields
    ensures ReadFields(|keys|, WriteFields(parent, keys) + rest) == Some((FieldsAt(parent, keys), rest))
    decreases parent, 0, |keys|
  {
    if keys == [] {
      assert WriteFields(parent, keys) + rest == rest;
    } else {
      var k, v, more := keys[0], parent.fields[keys[0]], WriteFields(parent, keys[1..]) + rest;
      assert WriteFields(parent, keys) + rest == WriteString(k) + (Write(v) + more);
      StringReadsBack(k, Write(v) + more);
      ReadsBack(v, more);
      FieldsReadBack(parent, keys[1..], rest);
      assert keys == [k] + keys[1..];
      assert FieldsAt(parent, keys) == FieldsAt(parent, keys[1..])[k := v];
    }
  }

  function ReadAll(text: string): Option<Json> {
    match Read(text)
    case Some((v, "")) => Some(v)
    case _ => None
  }

  lemma ReadAllReadsBack(v: Json)
    ensures ReadAll(Write(v)) == Some(v)
  {
    ReadsBack(v, "");
    assert Write(v) + "" == Write(v);
  }

  /** A machine that writes in this form. Every path is taken as it stands, and no evidence table matches. */
  function TextHost(): Host {
    Host(text => ReadAll(text), (text, data) => Write(data), (dir, name) => name, (path, dir) => true,
        (event, marker) => false)
  }

  /** There is a machine on which every tree that is written parses to itself. */
  lemma TextHostIsFaithful()
    ensures Faithful(TextHost())
  {
    forall text, data ensures TextHost().parse(TextHost().render(text, data)) == Some(data) {
      ReadAllReadsBack(data);
    }
  }
}
