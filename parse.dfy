/**
 * The single-value parser of parse.go (package envparser): Parse checks that
 * it was given a non-nil pointer to a value of a supported kind, and a parser
 * then reads the named variable and stores it in place, recording a failed
 * numeric parse in its err field. The error types' own messages live outside
 * parse.go and are not modelled; the errors are told apart by constructor.
 */
module Envparser {
  import opened Wrappers
  import opened Strconv
  import opened Os
  import opened Reflect

  datatype Error =
    /** InvalidArgError: the type of the argument, none for a nil interface. */
    | InvalidArg(argType: Option<Type>)
    /** UnsupportedTypeError: the type pointed to. */
    | UnsupportedType(typ: Type)
    /** NotPresentError: the key that is not in the environment. */
    | NotPresent(key: string)
    /** ParseError: the numeric error, the key and the type of the target. */
    | ParseError(cause: NumError, key: string, typ: Type)

  /** supportedKinds: the kinds Parse accepts, in their declared order. */
  const SupportedKinds: seq<Kind> := [String, Int, Int8, Int16, Int32, Int64, Uint, Uint8, Uint16, Uint32, Uint64]

  /** isSupportedKind: a linear search of SupportedKinds. */
  method IsSupportedKind(kind: Kind) returns (found: bool)
    ensures found <==> kind in SupportedKinds
  {
    var i := 0;
    while i < |SupportedKinds|
      invariant i <= |SupportedKinds|
      invariant kind !in SupportedKinds[..i]
    {
      if SupportedKinds[i] == kind {
        return true;
      }
      i := i + 1;
    }
    assert SupportedKinds[..i] == SupportedKinds;
    return false;
  }

  /** The arms of parser.parse's switch: what is done with the variable's text for a kind. */
  datatype Arm = SetString | IntArm(bits: BitSize) | UintArm(bits: BitSize) | DefaultArm

  /** parser.parse's switch on the target's kind, on a host whose `int` has ws bits. */
  function ArmOf(k: Kind, ws: UintSize): (r: Arm)
    ensures r.SetString? <==> k == String
    ensures r.IntArm? <==> k in [Int, Int8, Int16, Int32, Int64]
    ensures r.UintArm? <==> k in [Uint, Uint8, Uint16, Uint32, Uint64]
  {
    match k
    case String => SetString
    case Int => IntArm(ws)
    case Int8 => IntArm(8)
    case Int16 => IntArm(16)
    case Int32 => IntArm(32)
    case Int64 => IntArm(64)
    case Uint => UintArm(ws)
    case Uint8 => UintArm(8)
    case Uint16 => UintArm(16)
    case Uint32 => UintArm(32)
    case Uint64 => UintArm(64)
    case Bool | Float32 | Float64 | Struct | Ptr | Other(_) => DefaultArm
  }

  /** The switch picks a real arm exactly for the supported kinds, so its default arm is unreachable from Parse. */
  lemma ArmOfSupported(k: Kind, ws: UintSize)
    ensures ArmOf(k, ws) != DefaultArm <==> k in SupportedKinds
  {
  }

  /** Each integer kind is parsed at its own width: 8, 16, 32, 64, or the host's for int and uint. */
  lemma ArmBits(sz: IntSize, ws: UintSize)
    ensures ArmOf(KindOf(IntType(sz)), ws) == IntArm(IntBits(sz, ws))
    ensures ArmOf(KindOf(UintType(sz)), ws) == UintArm(IntBits(sz, ws))
  {
  }

  /** A parser's result: the target's new value, its err field, and what parse returns. */
  datatype Outcome = Outcome(v: Value, err: Option<Error>, returned: Option<Error>)

  /**
   * parser.parse on a target of type t holding v, with prior in the err
   * field. An absent key returns NotPresentError at once; a numeric arm stores
   * whatever the parse returned, and records a failed parse in err.
   */
  function ParseValue(h: Host, k: string, t: Type, v: Value, prior: Option<Error>): (r: Outcome)
    requires Conforms(v, t)
    ensures Conforms(r.v, t)
    ensures !Present(h.env, k) ==> r == Outcome(v, prior, Some(NotPresent(k)))
    ensures Present(h.env, k) ==> r.returned == r.err
    ensures Present(h.env, k) && r.err != prior ==>
              r.err == Some(UnsupportedType(t)) || (r.err.Some? && r.err.value.ParseError? && r.err.value.key == k && r.err.value.typ == t)
  {
    match LookupEnv(h.env, k)
    case None => Outcome(v, prior, Some(NotPresent(k)))
    case Some(s) =>
      match ArmOf(KindOf(t), h.uintSize)
      case SetString => Outcome(StrVal(s), prior, prior)
      case IntArm(b) =>
        var p := ParseInt(s, b);
        var err := if p.err.Some? then Some(ParseError(p.err.value, k, t)) else prior;
        Outcome(IntVal(StoredInt(t.isize, h.uintSize, p.value)), err, err)
      case UintArm(b) =>
        var p := ParseUint(s, b);
        var err := if p.err.Some? then Some(ParseError(p.err.value, k, t)) else prior;
        Outcome(UintVal(StoredUint(t.usize, h.uintSize, p.value)), err, err)
      case DefaultArm =>
        var err := Some(UnsupportedType(t));
        Outcome(v, err, err)
  }

  /** parser: the key, the variable it stores into, and the first error it met. */
  class Parser {
    const k: string
    const rv: Var
    var err: Option<Error>

    constructor (k: string, rv: Var)
      ensures this.k == k && this.rv == rv && err == None
    {
      this.k := k;
      this.rv := rv;
      err := None;
    }

    /**
     * parseAndSetInt: the target is set to what ParseInt returned, even on
     * failure, and a failure is recorded in err.
     */
    method ParseAndSetInt(ws: UintSize, s: string, bitSize: BitSize)
      requires rv.typ.IntType?
      modifies this, rv
      ensures var p := ParseInt(s, bitSize);
        && rv.value == IntVal(StoredInt(rv.typ.isize, ws, p.value))
        && err == if p.err.Some? then Some(ParseError(p.err.value, k, rv.typ)) else old(err)
    {
      var p := ParseInt(s, bitSize);
      if p.err.Some? {
        err := Some(ParseError(p.err.value, k, rv.typ));
      }
      rv.value := IntVal(StoredInt(rv.typ.isize, ws, p.value));
    }

    /** parseAndSetUint: as parseAndSetInt, with ParseUint. */
    method ParseAndSetUint(ws: UintSize, s: string, bitSize: BitSize)
      requires rv.typ.UintType?
      modifies this, rv
      ensures var p := ParseUint(s, bitSize);
        && rv.value == UintVal(StoredUint(rv.typ.usize, ws, p.value))
        && err == if p.err.Some? then Some(ParseError(p.err.value, k, rv.typ)) else old(err)
    {
      var p := ParseUint(s, bitSize);
      if p.err.Some? {
        err := Some(ParseError(p.err.value, k, rv.typ));
      }
      rv.value := UintVal(StoredUint(rv.typ.usize, ws, p.value));
    }

    /** parse: look the key up, then dispatch on the target's kind. */
    method Parse(h: Host) returns (e: Option<Error>)
      requires rv.Valid()
      modifies this, rv
      ensures rv.Valid()
      ensures var o := ParseValue(h, k, rv.typ, old(rv.value), old(err));
        rv.value == o.v && err == o.err && e == o.returned
    {
      var s := LookupEnv(h.env, k);
      if s.None? {
        return Some(NotPresent(k));
      }
      match ArmOf(KindOf(rv.typ), h.uintSize) {
        case SetString => rv.value := StrVal(s.value);
        case IntArm(b) => ParseAndSetInt(h.uintSize, s.value, b);
        case UintArm(b) => ParseAndSetUint(h.uintSize, s.value, b);
        case DefaultArm => err := Some(UnsupportedType(rv.typ));
      }
      return err;
    }
  }

  /**
   * Parse: an argument that is not a non-nil pointer is an InvalidArgError and
   * one pointing to an unsupported kind an UnsupportedTypeError, both before
   * the environment is read and with nothing written; otherwise a fresh
   * parser does the rest.
   */
  method Parse(h: Host, k: string, v: Any) returns (e: Option<Error>)
    requires v.Shaped()
    requires v.PointerTo? ==> v.target.Valid()
    modifies if v.PointerTo? then {v.target} else {}
    ensures v.PointerTo? ==> v.target.Valid()
    ensures !v.PointerTo? ==> e == Some(InvalidArg(TypeOf(v)))
    ensures v.PointerTo? && KindOf(v.target.typ) !in SupportedKinds ==>
              e == Some(UnsupportedType(v.target.typ)) && unchanged(v.target)
    ensures v.PointerTo? && KindOf(v.target.typ) in SupportedKinds ==>
              var o := ParseValue(h, k, v.target.typ, old(v.target.value), None);
              v.target.value == o.v && e == o.returned
  {
    var isPtr := v.PointerTo? || v.NilPointer?;
    if !isPtr || v.NilPointer? {
      return Some(InvalidArg(TypeOf(v)));
    }
    var supported := IsSupportedKind(KindOf(v.target.typ));
    if !supported {
      return Some(UnsupportedType(v.target.typ));
    }
    var p := new Parser(k, v.target);
    e := p.Parse(h);
  }

  /** An absent key is a NotPresentError naming it, and the target keeps its value. */
  lemma AbsentKey(h: Host, k: string, t: Type, v: Value)
    requires Conforms(v, t) && !Present(h.env, k)
    ensures ParseValue(h, k, t, v, None) == Outcome(v, None, Some(NotPresent(k)))
  {
  }

  /** A string target receives the variable's value verbatim. */
  lemma StringVerbatim(h: Host, k: string, v: Value)
    requires v.StrVal? && Present(h.env, k)
    ensures ParseValue(h, k, StringType, v, None) == Outcome(StrVal(h.env[k]), None, None)
  {
  }

  /** For a supported kind the default arm is never taken: the result is never an UnsupportedTypeError. */
  lemma SupportedNeverUnsupported(h: Host, k: string, t: Type, v: Value)
    requires Conforms(v, t) && KindOf(t) in SupportedKinds
    ensures ParseValue(h, k, t, v, None).returned.Some? ==> !ParseValue(h, k, t, v, None).returned.value.UnsupportedType?
  {
    ArmOfSupported(KindOf(t), h.uintSize);
  }

  /**
   * A signed target given the decimal text of an integer in its own width's
   * range gets exactly that integer; given one outside it, a ParseError
   * wrapping ParseInt's range error, and the target is set to the nearer bound.
   */
  lemma IntRoundTrip(h: Host, k: string, sz: IntSize, v: Value, i: int)
    requires v.IntVal? && Present(h.env, k) && h.env[k] == FormatInt(i)
    ensures var b := IntBits(sz, h.uintSize);
      MinInt(b) <= i <= MaxInt(b) ==> ParseValue(h, k, IntType(sz), v, None) == Outcome(IntVal(i), None, None)
    ensures var b := IntBits(sz, h.uintSize);
      var e := Some(ParseError(NumError("ParseInt", FormatInt(i), ErrRange), k, IntType(sz)));
      !(MinInt(b) <= i <= MaxInt(b)) ==>
        ParseValue(h, k, IntType(sz), v, None) == Outcome(IntVal(if i < 0 then MinInt(b) else MaxInt(b)), e, e)
  {
    ArmBits(sz, h.uintSize);
    ParseIntFormat(i, IntBits(sz, h.uintSize));
  }

  /** The same for unsigned targets. */
  lemma UintRoundTrip(h: Host, k: string, sz: IntSize, v: Value, n: nat)
    requires v.UintVal? && Present(h.env, k) && h.env[k] == FormatUint(n)
    ensures var b := IntBits(sz, h.uintSize);
      n <= MaxUint(b) ==> ParseValue(h, k, UintType(sz), v, None) == Outcome(UintVal(n), None, None)
    ensures var b := IntBits(sz, h.uintSize);
      var e := Some(ParseError(NumError("ParseUint", FormatUint(n), ErrRange), k, UintType(sz)));
      n > MaxUint(b) ==> ParseValue(h, k, UintType(sz), v, None) == Outcome(UintVal(MaxUint(b)), e, e)
  {
    ArmBits(sz, h.uintSize);
    ParseUintFormat(n, IntBits(sz, h.uintSize));
  }

  /** The bounds of every signed and unsigned kind round-trip through their decimal text. */
  lemma BoundsRoundTrip(h: Host, k: string, sz: IntSize, v: Value)
    requires Present(h.env, k)
    ensures var b := IntBits(sz, h.uintSize);
      v.IntVal? && h.env[k] == FormatInt(MinInt(b)) ==> ParseValue(h, k, IntType(sz), v, None) == Outcome(IntVal(MinInt(b)), None, None)
    ensures var b := IntBits(sz, h.uintSize);
      v.IntVal? && h.env[k] == FormatInt(MaxInt(b)) ==> ParseValue(h, k, IntType(sz), v, None) == Outcome(IntVal(MaxInt(b)), None, None)
    ensures var b := IntBits(sz, h.uintSize);
      v.UintVal? && h.env[k] == FormatUint(0) ==> ParseValue(h, k, UintType(sz), v, None) == Outcome(UintVal(0), None, None)
    ensures var b := IntBits(sz, h.uintSize);
      v.UintVal? && h.env[k] == FormatUint(MaxUint(b)) ==> ParseValue(h, k, UintType(sz), v, None) == Outcome(UintVal(MaxUint(b)), None, None)
  {
    var b := IntBits(sz, h.uintSize);
    if v.IntVal? && h.env[k] == FormatInt(MinInt(b)) {
      IntRoundTrip(h, k, sz, v, MinInt(b));
    }
    if v.IntVal? && h.env[k] == FormatInt(MaxInt(b)) {
      IntRoundTrip(h, k, sz, v, MaxInt(b));
    }
    if v.UintVal? && h.env[k] == FormatUint(0) {
      UintRoundTrip(h, k, sz, v, 0);
    }
    if v.UintVal? && h.env[k] == FormatUint(MaxUint(b)) {
      UintRoundTrip(h, k, sz, v, MaxUint(b));
    }
  }

  /** The largest value with a "0" appended is a range error, and the target is set to the largest value. */
  lemma IntMaxWithZeroIsRangeError(h: Host, k: string, sz: IntSize, v: Value)
    requires v.IntVal? && Present(h.env, k) && h.env[k] == FormatInt(MaxInt(IntBits(sz, h.uintSize))) + "0"
    ensures var b := IntBits(sz, h.uintSize);
      var e := Some(ParseError(NumError("ParseInt", h.env[k], ErrRange), k, IntType(sz)));
      ParseValue(h, k, IntType(sz), v, None) == Outcome(IntVal(MaxInt(b)), e, e)
  {
    ArmBits(sz, h.uintSize);
    MaxWithZeroAppended(IntBits(sz, h.uintSize));
  }

  /** The same for unsigned targets. */
  lemma UintMaxWithZeroIsRangeError(h: Host, k: string, sz: IntSize, v: Value)
    requires v.UintVal? && Present(h.env, k) && h.env[k] == FormatUint(MaxUint(IntBits(sz, h.uintSize))) + "0"
    ensures var b := IntBits(sz, h.uintSize);
      var e := Some(ParseError(NumError("ParseUint", h.env[k], ErrRange), k, UintType(sz)));
      ParseValue(h, k, UintType(sz), v, None) == Outcome(UintVal(MaxUint(b)), e, e)
  {
    ArmBits(sz, h.uintSize);
    MaxWithZeroAppended(IntBits(sz, h.uintSize));
  }

  /** Text starting with a letter, such as "zero", is a syntax error, and the target is set to 0. */
  lemma LetterIsSyntaxError(h: Host, k: string, sz: IntSize, v: Value)
    requires Present(h.env, k) && h.env[k] != [] && 'a' <= h.env[k][0] <= 'z'
    ensures var e := Some(ParseError(NumError("ParseInt", h.env[k], ErrSyntax), k, IntType(sz)));
      v.IntVal? ==> ParseValue(h, k, IntType(sz), v, None) == Outcome(IntVal(0), e, e)
    ensures var e := Some(ParseError(NumError("ParseUint", h.env[k], ErrSyntax), k, UintType(sz)));
      v.UintVal? ==> ParseValue(h, k, UintType(sz), v, None) == Outcome(UintVal(0), e, e)
  {
    ArmBits(sz, h.uintSize);
    LeadingLetterIsSyntaxError(h.env[k], IntBits(sz, h.uintSize));
  }
}
