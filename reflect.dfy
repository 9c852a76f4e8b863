/**
 * The static description of Go types and values that stands in for the
 * reflect package: a struct type is an ordered list of fields, each with its
 * name, the value of its `env` struct tag (if the tag has that key) and its
 * type; a value is a tree that follows its type. Pointers are boxes that are
 * either nil or hold the pointed-to value.
 */
module Reflect {
  import opened Wrappers
  import opened Strconv

  /** The kinds with no special treatment in the core. */
  datatype OtherKind = Uintptr | Complex64 | Complex128 | Array | Chan | Func | Interface | Map | Slice | UnsafePointer

  /** reflect.Kind. */
  datatype Kind =
    | Bool
    | Int | Int8 | Int16 | Int32 | Int64
    | Uint | Uint8 | Uint16 | Uint32 | Uint64
    | Float32 | Float64
    | String
    | Struct
    | Ptr
    | Other(other: OtherKind)

  /** The declared width of an integer type: `int`/`uint` take the host's. */
  datatype IntSize = NativeSize | Size8 | Size16 | Size32 | Size64

  datatype FloatSize = F32 | F64

  datatype Type =
    | BoolType
    | StringType
    | IntType(isize: IntSize)
    | UintType(usize: IntSize)
    | FloatType(fsize: FloatSize)
    | StructType(name: string, fields: seq<Field>)
    | PtrType(elem: Type)
    | OtherType(name: string, okind: OtherKind)

  /** A struct field: `tag` is the value under the key `env` of its struct tag, if that key is present. */
  datatype Field = Field(name: string, tag: Option<string>, typ: Type)

  datatype Value =
    | BoolVal(b: bool)
    | StrVal(s: string)
    | IntVal(i: int)
    | UintVal(u: nat)
    | FloatVal(f: Float)
    | StructVal(fields: seq<Value>)
    | NilPtr
    | PtrTo(target: Value)
    | OtherVal

  /** reflect.Type.Kind. */
  function KindOf(t: Type): Kind
  {
    match t
    case BoolType => Bool
    case StringType => String
    case IntType(sz) =>
      (match sz case NativeSize => Int case Size8 => Int8 case Size16 => Int16 case Size32 => Int32 case Size64 => Int64)
    case UintType(sz) =>
      (match sz case NativeSize => Uint case Size8 => Uint8 case Size16 => Uint16 case Size32 => Uint32 case Size64 => Uint64)
    case FloatType(sz) => (match sz case F32 => Float32 case F64 => Float64)
    case StructType(_, _) => Struct
    case PtrType(_) => Ptr
    case OtherType(_, k) => Other(k)
  }

  /** reflect.Kind.String. */
  function KindString(k: Kind): string
  {
    match k
    case Bool => "bool"
    case Int => "int"
    case Int8 => "int8"
    case Int16 => "int16"
    case Int32 => "int32"
    case Int64 => "int64"
    case Uint => "uint"
    case Uint8 => "uint8"
    case Uint16 => "uint16"
    case Uint32 => "uint32"
    case Uint64 => "uint64"
    case Float32 => "float32"
    case Float64 => "float64"
    case String => "string"
    case Struct => "struct"
    case Ptr => "ptr"
    case Other(o) =>
      match o
      case Uintptr => "uintptr"
      case Complex64 => "complex64"
      case Complex128 => "complex128"
      case Array => "array"
      case Chan => "chan"
      case Func => "func"
      case Interface => "interface"
      case Map => "map"
      case Slice => "slice"
      case UnsafePointer => "unsafe.Pointer"
  }

  /** The kind a reflect.Kind.String text names, if any: the inverse of KindString. */
  function KindNamed(s: string): Option<Kind>
  {
    match s
    case "bool" => Some(Bool)
    case "int" => Some(Int)
    case "int8" => Some(Int8)
    case "int16" => Some(Int16)
    case "int32" => Some(Int32)
    case "int64" => Some(Int64)
    case "uint" => Some(Uint)
    case "uint8" => Some(Uint8)
    case "uint16" => Some(Uint16)
    case "uint32" => Some(Uint32)
    case "uint64" => Some(Uint64)
    case "float32" => Some(Float32)
    case "float64" => Some(Float64)
    case "string" => Some(String)
    case "struct" => Some(Struct)
    case "ptr" => Some(Ptr)
    case "uintptr" => Some(Other(Uintptr))
    case "complex64" => Some(Other(Complex64))
    case "complex128" => Some(Other(Complex128))
    case "array" => Some(Other(Array))
    case "chan" => Some(Other(Chan))
    case "func" => Some(Other(Func))
    case "interface" => Some(Other(Interface))
    case "map" => Some(Other(Map))
    case "slice" => Some(Other(Slice))
    case "unsafe.Pointer" => Some(Other(UnsafePointer))
    case _ => None
  }

  /** Every kind's text names that kind and no other, so a message that prints a kind identifies it. */
  lemma KindStringRoundTrip(k: Kind)
    ensures KindNamed(KindString(k)) == Some(k)
  {
    match k
    case Other(o) =>
    case _ =>
  }

  /**
   * reflect.Type.String: a named type prints as its name, a pointer type as
   * '*' before its element's, and any other type as the name of its kind.
   */
  function TypeString(t: Type): (s: string)
    ensures t.PtrType? ==> |s| > 0 && s[0] == '*' && s[1..] == TypeString(t.elem)
    ensures !t.StructType? && !t.OtherType? && !t.PtrType? ==> KindNamed(s) == Some(KindOf(t))
  {
    KindStringRoundTrip(KindOf(t));
    match t
    case StructType(name, _) => name
    case PtrType(e) => "*" + TypeString(e)
    case OtherType(name, _) => name
    case _ => KindString(KindOf(t))
  }

  /** The bit size of a declared integer width on a host whose `int` has ws bits. */
  function IntBits(sz: IntSize, ws: UintSize): BitSize
  {
    match sz
    case NativeSize => ws
    case Size8 => 8
    case Size16 => 16
    case Size32 => 32
    case Size64 => 64
  }

  /** The value fits the type's shape: struct values have one value per field, pointers hold a value of their element type. */
  predicate Conforms(v: Value, t: Type)
    decreases t
  {
    match t
    case BoolType => v.BoolVal?
    case StringType => v.StrVal?
    case IntType(_) => v.IntVal?
    case UintType(_) => v.UintVal?
    case FloatType(_) => v.FloatVal?
    case StructType(_, fs) => v.StructVal? && FieldsConform(fs, v.fields)
    case PtrType(e) => v.NilPtr? || (v.PtrTo? && Conforms(v.target, e))
    case OtherType(_, _) => v.OtherVal?
  }

  predicate FieldsConform(fs: seq<Field>, vs: seq<Value>)
    decreases fs
  {
    |fs| == |vs| && forall i :: 0 <= i < |fs| ==> Conforms(vs[i], fs[i].typ)
  }

  /** The zero value of a type: what reflect.New puts behind a fresh pointer. */
  function Zero(t: Type): (v: Value)
    ensures Conforms(v, t)
    ensures t.PtrType? ==> v.NilPtr?
    decreases t
  {
    match t
    case BoolType => BoolVal(false)
    case StringType => StrVal("")
    case IntType(_) => IntVal(0)
    case UintType(_) => UintVal(0)
    case FloatType(_) => FloatVal(0)
    case StructType(_, fs) => StructVal(ZeroFields(fs))
    case PtrType(_) => NilPtr
    case OtherType(_, _) => OtherVal
  }

  function ZeroFields(fs: seq<Field>): (vs: seq<Value>)
    ensures FieldsConform(fs, vs)
    ensures forall i :: 0 <= i < |fs| ==> vs[i] == Zero(fs[i].typ)
    decreases fs
  {
    if fs == [] then [] else [Zero(fs[0].typ)] + ZeroFields(fs[1..])
  }

  /**
   * reflect.Value.SetInt on a field of width sz: Go converts the int64 to the
   * field's type, keeping its low bits as a two's-complement number.
   */
  function StoredInt(sz: IntSize, ws: UintSize, x: int): (r: int)
    ensures MinInt(IntBits(sz, ws)) <= r <= MaxInt(IntBits(sz, ws))
    ensures MinInt(IntBits(sz, ws)) <= x <= MaxInt(IntBits(sz, ws)) ==> r == x
    ensures (x - r) % Pow2(IntBits(sz, ws)) == 0
  {
    var p := Pow2(IntBits(sz, ws));
    (x + p / 2) % p - p / 2
  }

  /** reflect.Value.SetUint on a field of width sz: the value modulo 2 to the width. */
  function StoredUint(sz: IntSize, ws: UintSize, x: nat): (r: nat)
    ensures r <= MaxUint(IntBits(sz, ws))
    ensures x <= MaxUint(IntBits(sz, ws)) ==> r == x
    ensures (x - r) % Pow2(IntBits(sz, ws)) == 0
  {
    x % Pow2(IntBits(sz, ws))
  }

  /** A variable of the caller's: what a non-nil pointer passed to the core points to. */
  class Var {
    const typ: Type
    var value: Value

    ghost predicate Valid()
      reads this
    {
      Conforms(value, typ)
    }

    constructor (typ: Type, value: Value)
      requires Conforms(value, typ)
      ensures this.typ == typ && this.value == value && Valid()
    {
      this.typ := typ;
      this.value := value;
    }
  }

  /** An interface{} argument: nil, a value of a non-pointer type, a nil pointer, or a pointer to a variable. */
  datatype Any =
    | NilAny
    | NonPointer(typ: Type, val: Value)
    | NilPointer(elem: Type)
    | PointerTo(target: Var)
  {
    /** What Go's type system guarantees of an interface value. */
    predicate Shaped()
    {
      NonPointer? ==> !typ.PtrType? && Conforms(val, typ)
    }
  }

  /** reflect.TypeOf: no type for a nil interface. */
  function TypeOf(a: Any): (r: Option<Type>)
    ensures r.None? <==> a.NilAny?
    ensures a.Shaped() ==> (r.Some? && KindOf(r.value) == Ptr <==> a.NilPointer? || a.PointerTo?)
    ensures a.PointerTo? ==> r == Some(PtrType(a.target.typ))
  {
    match a
    case NilAny => None
    case NonPointer(t, _) => Some(t)
    case NilPointer(e) => Some(PtrType(e))
    case PointerTo(v) => Some(PtrType(v.typ))
  }
}
