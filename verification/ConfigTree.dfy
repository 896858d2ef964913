/** Parsed JSON configuration: values under Python's equality, dotted field paths, reads and writes at a path. */
module ConfigTree {
  import opened Wrappers

  function Pow2(n: nat): (p: nat)
    ensures p > 0
  {
    if n == 0 then 1 else 2 * Pow2(n - 1)
  }

  /** The number `mantissa * 2^exponent`. */
  datatype Binary = Binary(mantissa: int, exponent: int)
  {
    function Value(): real {
      if exponent >= 0 then (mantissa * Pow2(exponent)) as real else mantissa as real / Pow2(-exponent) as real
    }
  }

  /** A finite IEEE 754 double, in lowest terms: an odd mantissa of at most 53 bits, or zero. There is one zero. */
  predicate IsDouble(b: Binary) {
    var m := if b.mantissa < 0 then -b.mantissa else b.mantissa;
    if m == 0 then b.exponent == 0
    else
      && m % 2 == 1 && m < 0x20_0000_0000_0000 && -1074 <= b.exponent <= 1023
      && (b.exponent > 971 ==> m < Pow2(1024 - b.exponent))
  }

  type Double = b: Binary | IsDouble(b) witness Binary(0, 0)

  datatype Json =
    | Null
    | Bool(flag: bool)
    | Int(num: int)
    | Float(double: Double)
    | Str(text: string)
    | Arr(items: seq<Json>)
    | Obj(fields: map<string, Json>)

  /** A field path, already split at its dots. */
  type Path = seq<string>

  /** Splitting a name at its dots gives at least one component. */
  type FieldPath = p: Path | p != [] witness [""]

  predicate IsNumber(a: Json) {
    a.Bool? || a.Int? || a.Float?
  }

  function NumberOf(a: Json): real
    requires IsNumber(a)
  {
    match a
    case Bool(b) => if b then 1.0 else 0.0
    case Int(n) => n as real
    case Float(d) => d.Value()
  }

  /** Python's `==`: booleans are the numbers 0 and 1, so `0 == False` and `1 == True`. */
  predicate PyEq(a: Json, b: Json) {
    match (a, b)
    case (Null, Null) => true
    case (Str(s), Str(t)) => s == t
    case (Arr(xs), Arr(ys)) => |xs| == |ys| && forall i | 0 <= i < |xs| :: PyEq(xs[i], ys[i])
    case (Obj(m), Obj(n)) => m.Keys == n.Keys && forall k | k in m.Keys :: PyEq(m[k], n[k])
    case _ => IsNumber(a) && IsNumber(b) && NumberOf(a) == NumberOf(b)
  }

  lemma PyEqReflexive(a: Json)
    ensures PyEq(a, a)
  {
  }

  /** Python's equality is an equivalence. */
  lemma {:induction false} PyEqSymmetric(a: Json, b: Json)
    ensures PyEq(a, b) == PyEq(b, a)
    decreases a
  {
    match (a, b)
    case (Arr(xs), Arr(ys)) =>
      forall i | 0 <= i < |xs| && 0 <= i < |ys| ensures PyEq(xs[i], ys[i]) == PyEq(ys[i], xs[i]) {
        PyEqSymmetric(xs[i], ys[i]);
      }
    case (Obj(m), Obj(n)) =>
      forall k | k in m.Keys && k in n.Keys ensures PyEq(m[k], n[k]) == PyEq(n[k], m[k]) {
        PyEqSymmetric(m[k], n[k]);
      }
    case _ =>
  }

  lemma {:induction false} PyEqTransitive(a: Json, b: Json, c: Json)
    requires PyEq(a, b) && PyEq(b, c)
    ensures PyEq(a, c)
    decreases a
  {
    match (a, c)
    case (Arr(xs), Arr(zs)) =>
      forall i | 0 <= i < |xs| ensures PyEq(xs[i], zs[i]) {
        PyEqTransitive(xs[i], b.items[i], zs[i]);
      }
    case (Obj(m), Obj(o)) =>
      forall k | k in m.Keys ensures PyEq(m[k], o[k]) {
        PyEqTransitive(m[k], b.fields[k], o[k]);
      }
    case _ =>
  }

  /** Values of different kinds are different, except that booleans are the numbers 0 and 1. */
  lemma PyEqKinds(a: Json, b: Json)
    requires PyEq(a, b)
    ensures IsNumber(a) == IsNumber(b) && a.Null? == b.Null? && a.Str? == b.Str? && a.Arr? == b.Arr? && a.Obj? == b.Obj?
  {
  }

  lemma PyEqScalars(n: int, m: int, p: bool, q: bool, s: string, t: string)
    ensures PyEq(Int(n), Int(m)) <==> n == m
    ensures PyEq(Bool(p), Bool(q)) <==> p == q
    ensures PyEq(Str(s), Str(t)) <==> s == t
    ensures PyEq(Bool(p), Int(n)) <==> n == if p then 1 else 0
  {
  }

  /** The value at a path, or None where Python raises KeyError. */
  function Lookup(data: Json, path: Path): Option<Json> {
    if path == [] then Some(data)
    else if data.Obj? && path[0] in data.fields then Lookup(data.fields[path[0]], path[1..])
    else None
  }

  /** The tree after an assignment at an existing path. */
  function Update(data: Json, path: Path, v: Json): Json
    requires Lookup(data, path).Some?
  {
    if path == [] then v
    else Obj(data.fields[path[0] := Update(data.fields[path[0]], path[1..], v)])
  }

  /** Two paths part ways at some component, so neither runs through the other. */
  predicate Diverge(p: Path, q: Path) {
    p != [] && q != [] && (p[0] != q[0] || Diverge(p[1..], q[1..]))
  }

  lemma {:induction false} DivergeSymmetric(p: Path, q: Path)
    ensures Diverge(p, q) == Diverge(q, p)
  {
    if p != [] && q != [] {
      DivergeSymmetric(p[1..], q[1..]);
    }
  }

  lemma {:induction false} DivergeIsPrefixFree(p: Path, q: Path)
    ensures Diverge(p, q) <==> !(p <= q) && !(q <= p)
  {
    if p != [] && q != [] {
      DivergeIsPrefixFree(p[1..], q[1..]);
      if p[0] == q[0] {
        assert p == [p[0]] + p[1..] && q == [q[0]] + q[1..];
        assert p <= q <==> p[1..] <= q[1..];
        assert q <= p <==> q[1..] <= p[1..];
      }
    }
  }

  lemma {:induction false} LookupAfterUpdate(data: Json, path: Path, v: Json)
    requires Lookup(data, path).Some?
    ensures Lookup(Update(data, path, v), path) == Some(v)
  {
    if path != [] {
      LookupAfterUpdate(data.fields[path[0]], path[1..], v);
    }
  }

  /** A write at `path` leaves every path that diverges from it as it was, present or absent. */
  lemma {:induction false} UpdateFrame(data: Json, path: Path, v: Json, other: Path)
    requires Lookup(data, path).Some? && Diverge(path, other)
    ensures Lookup(Update(data, path, v), other) == Lookup(data, other)
  {
    if path[0] == other[0] {
      UpdateFrame(data.fields[path[0]], path[1..], v, other[1..]);
    }
  }

  /** The cursor walk that reads a field. */
  method GetNestedValue(data: Json, parts: Path) returns (r: Option<Json>)
    ensures r == Lookup(data, parts)
  {
    var current := data;
    for i := 0 to |parts|
      invariant Lookup(data, parts) == Lookup(current, parts[i..])
    {
      assert parts[i..][1..] == parts[i + 1..];
      if !current.Obj? || parts[i] !in current.fields {
        return None;
      }
      current := current.fields[parts[i]];
    }
    return Some(current);
  }

  /** Doubles at the ends of their range, and numbers just beyond. */
  lemma DoubleRange()
    ensures IsDouble(Binary(0x1F_FFFF_FFFF_FFFF, 971)) && !IsDouble(Binary(0x1F_FFFF_FFFF_FFFF, 972))
    ensures !IsDouble(Binary(0x20_0000_0000_0001, 0)) && !IsDouble(Binary(-0x20_0000_0000_0001, 0))
    ensures IsDouble(Binary(1, -1074)) && !IsDouble(Binary(1, -1075))
    ensures IsDouble(Binary(-1, 1023)) && !IsDouble(Binary(1, 1024)) && !IsDouble(Binary(3, 1023))
    ensures IsDouble(Binary(3, 1022)) && !IsDouble(Binary(2, 0)) && !IsDouble(Binary(6, 0)) && IsDouble(Binary(0, 0))
    ensures !IsDouble(Binary(0, 1))
  {
    SmallPowers();
  }

  lemma SmallPowers()
    ensures Pow2(0) == 1 && Pow2(1) == 2 && Pow2(2) == 4
    ensures Pow2(52) == 0x10_0000_0000_0000
  {
    assert Pow2(10) == 1024;
    PowersAdd(10, 10);
    PowersAdd(20, 20);
    PowersAdd(40, 10);
    PowersAdd(50, 2);
  }

  lemma {:induction false} PowersAdd(m: nat, n: nat)
    ensures Pow2(m + n) == Pow2(m) * Pow2(n)
  {
    if m > 0 {
      PowersAdd(m - 1, n);
    }
  }
}
