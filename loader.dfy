/**
 * The struct walker of loader.go, the later revision of the same package:
 * Load and load walk the struct as before, but a field of a kind the walker
 * does not handle is skipped whatever its tag, and a failed parse is reported
 * as "envconfig: failed to parse KEY as KIND: " followed by the
 * strconv.NumError it wraps. lookup, preparePtr and lookupAndSetString are
 * the same in both revisions and are taken from EnvconfigLoad.
 */
module EnvconfigLoader {
  import opened Wrappers
  import opened Strconv
  import opened Os
  import opened Reflect
  import opened EnvconfigErrors
  import opened Walk
  import Shared = EnvconfigLoad

  datatype Error =
    | InvalidLoad(cause: InvalidLoadError)
    /** The error wrapParseError builds: the key, the kind of the value being set, and the parse error it wraps. */
    | ParseFailed(key: string, kind: Kind, wrapped: NumError)

  const ParsePrefix: string := "envconfig: failed to parse "

  /**
   * wrapParseError: %w keeps the parse error itself for errors.Unwrap, next to
   * the key and the kind of the value rv of type t.
   */
  function WrapParseError(k: string, t: Type, cause: NumError): (e: Error)
    ensures Unwrap(e) == Some(cause)
    ensures e.ParseFailed? && e.key == k && e.kind == KindOf(t)
  {
    ParseFailed(k, KindOf(t), cause)
  }

  /** The text of an error, as its Error method gives it. */
  function Message(e: Error): (msg: string)
    ensures e.InvalidLoad? ==> Prefix <= msg
    ensures e.ParseFailed? ==>
              && ParsePrefix <= msg
              && |NumErrorText(e.wrapped)| <= |msg|
              && msg[|msg| - |NumErrorText(e.wrapped)|..] == NumErrorText(e.wrapped)
  {
    match e
    case InvalidLoad(c) => EnvconfigErrors.Error(c)
    case ParseFailed(k, kind, c) => ParsePrefix + k + " as " + KindString(kind) + ": " + NumErrorText(c)
  }

  /** errors.Unwrap: the error that %w wrapped, if any. */
  function Unwrap(e: Error): Option<NumError>
  {
    match e
    case InvalidLoad(_) => None
    case ParseFailed(_, _, c) => Some(c)
  }

  /**
   * A wrapped parse error gives back the parse error it wraps, and its text
   * starts with the key and the value's kind and ends with the wrapped text.
   */
  lemma WrapParseErrorForm(k: string, t: Type, cause: NumError)
    ensures Unwrap(WrapParseError(k, t, cause)) == Some(cause)
    ensures var msg := Message(WrapParseError(k, t, cause));
      var head := ParsePrefix + k + " as " + KindString(KindOf(t)) + ": ";
      && head <= msg
      && msg[|head|..] == NumErrorText(cause)
  {
    var msg := Message(WrapParseError(k, t, cause));
    var head := ParsePrefix + k + " as " + KindString(KindOf(t)) + ": ";
    assert msg == head + NumErrorText(cause);
  }

  /** The two kinds of error never share a text: one begins "envconfig: Load(", the other "envconfig: failed". */
  lemma MessagesDistinct(c: InvalidLoadError, k: string, kind: Kind, cause: NumError)
    ensures Message(InvalidLoad(c)) != Message(ParseFailed(k, kind, cause))
  {
    var a := Message(InvalidLoad(c));
    var b := Message(ParseFailed(k, kind, cause));
    assert a[11] == 'L';
    assert b[11] == 'f';
  }

  /** lookupAndSetInt: the variable parsed at bits.UintSize; a failed parse is wrapped with the key and the value's kind. */
  function LookupAndSetInt(h: Host, f: Field, t: Type, rv: Value): (r: Outcome<Error>)
    requires t.IntType? && rv.IntVal?
    ensures r.v.IntVal?
    ensures r.err.Some? <==> Shared.IsSet(h.env, f) && ParseInt(h.env[f.tag.value], h.uintSize).err.Some?
    ensures r.err.Some? ==>
              r == Outcome(rv, Some(ParseFailed(f.tag.value, KindOf(t), ParseInt(h.env[f.tag.value], h.uintSize).err.value)))
    ensures !Shared.IsSet(h.env, f) ==> r == Outcome(rv, None)
    ensures Shared.IsSet(h.env, f) && r.err.None? ==>
              r.v == IntVal(StoredInt(t.isize, h.uintSize, ParseInt(h.env[f.tag.value], h.uintSize).value))
  {
    var (k, s, ok) := Shared.Lookup(h.env, f);
    if !ok then Outcome(rv, None)
    else
      var p := ParseInt(s, h.uintSize);
      if p.err.Some? then Outcome(rv, Some(WrapParseError(k, t, p.err.value)))
      else Outcome(IntVal(StoredInt(t.isize, h.uintSize, p.value)), None)
  }

  /** lookupAndSetUint: as lookupAndSetInt, with ParseUint. */
  function LookupAndSetUint(h: Host, f: Field, t: Type, rv: Value): (r: Outcome<Error>)
    requires t.UintType? && rv.UintVal?
    ensures r.v.UintVal?
    ensures r.err.Some? <==> Shared.IsSet(h.env, f) && ParseUint(h.env[f.tag.value], h.uintSize).err.Some?
    ensures r.err.Some? ==>
              r == Outcome(rv, Some(ParseFailed(f.tag.value, KindOf(t), ParseUint(h.env[f.tag.value], h.uintSize).err.value)))
    ensures !Shared.IsSet(h.env, f) ==> r == Outcome(rv, None)
    ensures Shared.IsSet(h.env, f) && r.err.None? ==>
              r.v == UintVal(StoredUint(t.usize, h.uintSize, ParseUint(h.env[f.tag.value], h.uintSize).value))
  {
    var (k, s, ok) := Shared.Lookup(h.env, f);
    if !ok then Outcome(rv, None)
    else
      var p := ParseUint(s, h.uintSize);
      if p.err.Some? then Outcome(rv, Some(WrapParseError(k, t, p.err.value)))
      else Outcome(UintVal(StoredUint(t.usize, h.uintSize, p.value)), None)
  }

  /** lookupAndSetFloat: the variable parsed by ParseFloat at bits.UintSize. */
  function LookupAndSetFloat(h: Host, f: Field, t: Type, rv: Value): (r: Outcome<Error>)
    requires t.FloatType? && rv.FloatVal?
    ensures r.v.FloatVal?
    ensures r.err.Some? <==> Shared.IsSet(h.env, f) && h.parseFloat(h.env[f.tag.value], h.uintSize).err.Some?
    ensures r.err.Some? ==>
              r == Outcome(rv, Some(ParseFailed(f.tag.value, KindOf(t), h.parseFloat(h.env[f.tag.value], h.uintSize).err.value)))
    ensures !Shared.IsSet(h.env, f) ==> r == Outcome(rv, None)
    ensures Shared.IsSet(h.env, f) && r.err.None? ==> r.v == FloatVal(h.parseFloat(h.env[f.tag.value], h.uintSize).value)
  {
    var (k, s, ok) := Shared.Lookup(h.env, f);
    if !ok then Outcome(rv, None)
    else
      var p := h.parseFloat(s, h.uintSize);
      if p.err.Some? then Outcome(rv, Some(WrapParseError(k, t, p.err.value)))
      else Outcome(FloatVal(p.value), None)
  }

  /** The arm of load's switch for one leaf field, applied to its value rv. */
  function SetLeaf(h: Host, f: Field, t: Type, rv: Value): (r: Outcome<Error>)
    requires Shared.IsLeaf(t) && Conforms(rv, t)
    ensures Conforms(r.v, t)
  {
    match t
    case StringType => Outcome(Shared.LookupAndSetString(h.env, f, rv), None)
    case IntType(_) => LookupAndSetInt(h, f, t, rv)
    case UintType(_) => LookupAndSetUint(h, f, t, rv)
    case FloatType(_) => LookupAndSetFloat(h, f, t, rv)
  }

  /**
   * The body of load's loop for one field. Fields of other kinds, behind a
   * pointer or not, are skipped; the error of a pointer-to-struct field's
   * recursion is dropped, that of a struct field kept.
   */
  function LoadField(h: Host, f: Field, v: Value): (r: Outcome<Error>)
    requires Conforms(v, f.typ)
    ensures Conforms(r.v, f.typ)
    ensures r.err.Some? ==> r.err.value.ParseFailed?
    decreases f, 0
  {
    match f.typ
    case PtrType(elem) =>
      (match elem
       case StructType(_, _) =>
         var p := Shared.PreparePtr(elem, v);
         var inner := LoadFields(h, elem, p.target.fields, 0);
         Outcome(PtrTo(StructVal(inner.vs)), None)
       case StringType | IntType(_) | UintType(_) | FloatType(_) =>
         var p := Shared.PreparePtr(elem, v);
         var o := SetLeaf(h, f, elem, p.target);
         Outcome(PtrTo(o.v), o.err)
       case BoolType | PtrType(_) | OtherType(_, _) =>
         Outcome(v, None))
    case StructType(_, _) =>
      var inner := LoadFields(h, f.typ, v.fields, 0);
      Outcome(StructVal(inner.vs), inner.err)
    case StringType | IntType(_) | UintType(_) | FloatType(_) =>
      SetLeaf(h, f, f.typ, v)
    case BoolType | OtherType(_, _) =>
      Outcome(v, None)
  }

  /** load's loop from field i on; the first field that yields an error stops the walk. */
  function LoadFields(h: Host, t: Type, vs: seq<Value>, i: nat): (r: Loaded<Error>)
    requires t.StructType? && FieldsConform(t.fields, vs) && i <= |vs|
    ensures FieldsConform(t.fields, r.vs)
    ensures forall j :: 0 <= j < i ==> r.vs[j] == vs[j]
    ensures r.err.Some? ==> r.err.value.ParseFailed?
    decreases t, |vs| - i
  {
    if i == |vs| then Loaded(vs, None)
    else
      var o := LoadField(h, t.fields[i], vs[i]);
      var vs' := vs[i := o.v];
      if o.err.Some? then Loaded(vs', o.err) else LoadFields(h, t, vs', i + 1)
  }

  /** load: the loop over the fields of the struct value v of type t. */
  method LoadStruct(h: Host, t: Type, v: Value) returns (out: Value, err: Option<Error>)
    requires t.StructType? && Conforms(v, t)
    ensures out.StructVal? && Loaded(out.fields, err) == LoadFields(h, t, v.fields, 0)
    decreases t
  {
    var fs := t.fields;
    var vals := v.fields;
    var i := 0;
    while i < |fs|
      invariant i <= |fs| && FieldsConform(fs, vals)
      invariant LoadFields(h, t, vals, i) == LoadFields(h, t, v.fields, 0)
    {
      var f := fs[i];
      var fv := vals[i];
      ghost var before := vals;
      ghost var spec := LoadField(h, f, fv);
      assert LoadFields(h, t, before, i) ==
             if spec.err.Some? then Loaded(before[i := spec.v], spec.err) else LoadFields(h, t, before[i := spec.v], i + 1);
      match f.typ {
        case PtrType(elem) =>
          match elem {
            case StructType(_, _) =>
              var p := Shared.PreparePtr(elem, fv);
              var inner, _ := LoadStruct(h, elem, p.target);
              vals := vals[i := PtrTo(inner)];
            case StringType | IntType(_) | UintType(_) | FloatType(_) =>
              var p := Shared.PreparePtr(elem, fv);
              var o := SetLeaf(h, f, elem, p.target);
              vals := vals[i := PtrTo(o.v)];
              if o.err.Some? {
                return StructVal(vals), o.err;
              }
            case BoolType | PtrType(_) | OtherType(_, _) =>
          }
        case StructType(_, _) =>
          var inner, e := LoadStruct(h, f.typ, fv);
          vals := vals[i := inner];
          if e.Some? {
            return StructVal(vals), e;
          }
        case StringType | IntType(_) | UintType(_) | FloatType(_) =>
          var o := SetLeaf(h, f, f.typ, fv);
          vals := vals[i := o.v];
          if o.err.Some? {
            return StructVal(vals), o.err;
          }
        case BoolType | OtherType(_, _) =>
      }
      assert spec.err.None? && vals == before[i := spec.v];
      i := i + 1;
    }
    return StructVal(vals), None;
  }

  /**
   * Load: any argument but a non-nil pointer to a struct is refused with
   * InvalidLoadError and nothing is written; otherwise the struct is walked in
   * place and the walk's error, if any, is returned.
   */
  method Load(h: Host, conf: Any) returns (err: Option<Error>)
    requires conf.Shaped()
    requires conf.PointerTo? ==> conf.target.Valid()
    modifies if conf.PointerTo? then {conf.target} else {}
    ensures conf.PointerTo? ==> conf.target.Valid()
    ensures !Shared.IsStructPointer(conf) ==> err == Some(InvalidLoad(InvalidLoadError(TypeOf(conf))))
    ensures !Shared.IsStructPointer(conf) && conf.PointerTo? ==> unchanged(conf.target)
    ensures Shared.IsStructPointer(conf) ==>
              conf.target.value.StructVal? &&
              Loaded(conf.target.value.fields, err) == LoadFields(h, conf.target.typ, old(conf.target.value).fields, 0)
  {
    var isPtr := conf.PointerTo? || conf.NilPointer?;
    if !isPtr || conf.NilPointer? || KindOf(conf.target.typ) != Struct {
      return Some(InvalidLoad(InvalidLoadError(TypeOf(conf))));
    }
    var out, e := LoadStruct(h, conf.target.typ, conf.target.value);
    conf.target.value := out;
    return e;
  }

  /** What each field's handling gives, from the values the loop starts with. */
  function Outcomes(h: Host, t: Type, vs: seq<Value>): (os: seq<Outcome<Error>>)
    requires t.StructType? && FieldsConform(t.fields, vs)
    ensures |os| == |vs|
    ensures forall j :: 0 <= j < |vs| ==> os[j] == LoadField(h, t.fields[j], vs[j])
  {
    seq(|vs|, j requires 0 <= j < |vs| => LoadField(h, t.fields[j], vs[j]))
  }

  /**
   * The loop only writes the field it is at, so each field is handled from
   * the value it started with: load's loop is Run over those outcomes.
   */
  lemma {:induction false} LoadFieldsIsRun(h: Host, t: Type, vs: seq<Value>, os: seq<Outcome<Error>>, i: nat)
    requires t.StructType? && FieldsConform(t.fields, vs) && i <= |vs| && |os| == |vs|
    requires forall j :: i <= j < |vs| ==> os[j] == LoadField(h, t.fields[j], vs[j])
    ensures LoadFields(h, t, vs, i) == Run(os, vs, i)
    decreases |vs| - i
  {
    if i < |vs| && os[i].err.None? {
      var vs1 := vs[i := os[i].v];
      forall j | i + 1 <= j < |vs|
        ensures os[j] == LoadField(h, t.fields[j], vs1[j])
      {
        assert vs1[j] == vs[j];
      }
      LoadFieldsIsRun(h, t, vs1, os, i + 1);
    }
  }

  /**
   * Fail-fast, field by field: fields from i up to and including the first
   * failing one get the values their own handling gives them, all others keep
   * theirs, and the walk's error is the failing field's.
   */
  lemma {:induction false} LoadFieldsFailFast(h: Host, t: Type, vs: seq<Value>, i: nat)
    requires t.StructType? && FieldsConform(t.fields, vs) && i <= |vs|
    ensures var r := LoadFields(h, t, vs, i);
      var os := Outcomes(h, t, vs);
      var n := FirstFailure(os, i);
      && |r.vs| == |vs|
      && (forall j :: 0 <= j < i ==> r.vs[j] == vs[j])
      && (forall j :: i <= j <= n && j < |vs| ==> r.vs[j] == os[j].v)
      && (forall j :: n < j < |vs| ==> r.vs[j] == vs[j])
      && r.err == (if n < |vs| then os[n].err else None)
  {
    LoadFieldsIsRun(h, t, vs, Outcomes(h, t, vs), i);
    RunFailFast(Outcomes(h, t, vs), vs, i);
  }

  /** The only error a field can produce is a wrapped parse error, and it names a variable that is set. */
  lemma {:induction false} FieldErrorIsParseFailure(h: Host, f: Field, v: Value)
    requires Conforms(v, f.typ)
    ensures var e := LoadField(h, f, v).err;
      e.Some? ==> e.value.ParseFailed? && Present(h.env, e.value.key)
    decreases f, 0
  {
    if f.typ.StructType? {
      ErrorIsParseFailure(h, f.typ, v.fields, 0);
    }
  }

  /**
   * In this revision loading a struct can only fail on a variable that is set
   * but does not parse: the error is always a wrapped parse error for a key
   * present in the environment.
   */
  lemma {:induction false} ErrorIsParseFailure(h: Host, t: Type, vs: seq<Value>, i: nat)
    requires t.StructType? && FieldsConform(t.fields, vs) && i <= |vs|
    ensures var e := LoadFields(h, t, vs, i).err;
      e.Some? ==> e.value.ParseFailed? && Present(h.env, e.value.key)
    decreases t, |vs| - i
  {
    if i < |vs| {
      var o := LoadField(h, t.fields[i], vs[i]);
      FieldErrorIsParseFailure(h, t.fields[i], vs[i]);
      ErrorIsParseFailure(h, t, vs[i := o.v], i + 1);
    }
  }

  /** A field of a kind the walker does not handle is skipped, tagged or not: unchanged and no error. */
  lemma UnsupportedFieldSkipped(h: Host, f: Field, v: Value)
    requires Conforms(v, f.typ)
    requires f.typ.BoolType? || f.typ.OtherType? || (f.typ.PtrType? && !f.typ.elem.StructType? && !Shared.IsLeaf(f.typ.elem))
    ensures LoadField(h, f, v) == Outcome(v, None)
  {
  }

  /** A pointer-to-struct field never reports an error, whatever happens inside it. */
  lemma PointerStructSwallowsErrors(h: Host, f: Field, v: Value)
    requires f.typ.PtrType? && f.typ.elem.StructType? && Conforms(v, f.typ)
    ensures LoadField(h, f, v).err.None?
    ensures LoadField(h, f, v).v ==
              PtrTo(StructVal(LoadFields(h, f.typ.elem, Shared.PreparePtr(f.typ.elem, v).target.fields, 0).vs))
  {
  }

  /**
   * An integer field whose variable spells an integer outside the range of
   * bits.UintSize is not written, and the error wraps ParseInt's range error
   * with the key and the field's kind.
   */
  lemma IntFieldOutOfRange(h: Host, f: Field, v: Value, i: int)
    requires f.typ.IntType? && Conforms(v, f.typ) && Shared.IsSet(h.env, f)
    requires h.env[f.tag.value] == FormatInt(i) && !(MinInt(h.uintSize) <= i <= MaxInt(h.uintSize))
    ensures LoadField(h, f, v) ==
              Outcome(v, Some(ParseFailed(f.tag.value, KindOf(f.typ), NumError("ParseInt", FormatInt(i), ErrRange))))
  {
    ParseIntFormat(i, h.uintSize);
  }

  /** An integer field whose variable spells an integer in the range of bits.UintSize gets it, converted to its width. */
  lemma IntFieldInRange(h: Host, f: Field, v: Value, i: int)
    requires f.typ.IntType? && Conforms(v, f.typ) && Shared.IsSet(h.env, f)
    requires h.env[f.tag.value] == FormatInt(i) && MinInt(h.uintSize) <= i <= MaxInt(h.uintSize)
    ensures LoadField(h, f, v) == Outcome(IntVal(StoredInt(f.typ.isize, h.uintSize, i)), None)
  {
    ParseIntFormat(i, h.uintSize);
  }

  /** The same for unsigned fields. */
  lemma UintFieldFromDecimal(h: Host, f: Field, v: Value, n: nat)
    requires f.typ.UintType? && Conforms(v, f.typ) && Shared.IsSet(h.env, f)
    requires h.env[f.tag.value] == FormatUint(n)
    ensures n <= MaxUint(h.uintSize) ==>
              LoadField(h, f, v) == Outcome(UintVal(StoredUint(f.typ.usize, h.uintSize, n)), None)
    ensures n > MaxUint(h.uintSize) ==>
              LoadField(h, f, v) ==
                Outcome(v, Some(ParseFailed(f.tag.value, KindOf(f.typ), NumError("ParseUint", FormatUint(n), ErrRange))))
  {
    ParseUintFormat(n, h.uintSize);
  }

  /** A variable that starts with a letter makes an integer field fail with a wrapped syntax error. */
  lemma IntFieldSyntaxError(h: Host, f: Field, v: Value)
    requires f.typ.IntType? && Conforms(v, f.typ) && Shared.IsSet(h.env, f)
    requires var s := h.env[f.tag.value]; s != [] && 'a' <= s[0] <= 'z'
    ensures LoadField(h, f, v) ==
              Outcome(v, Some(ParseFailed(f.tag.value, KindOf(f.typ), NumError("ParseInt", h.env[f.tag.value], ErrSyntax))))
  {
    LeadingLetterIsSyntaxError(h.env[f.tag.value], h.uintSize);
  }

  lemma SetLeafIdempotent(h: Host, f: Field, t: Type, rv: Value)
    requires Shared.IsLeaf(t) && Conforms(rv, t)
    ensures SetLeaf(h, f, t, SetLeaf(h, f, t, rv).v) == SetLeaf(h, f, t, rv)
  {
  }

  lemma {:induction false} LoadFieldIdempotent(h: Host, f: Field, v: Value)
    requires Conforms(v, f.typ)
    ensures LoadField(h, f, LoadField(h, f, v).v) == LoadField(h, f, v)
    decreases f, 0
  {
    match f.typ
    case PtrType(elem) =>
      if elem.StructType? {
        LoadFieldsIdempotent(h, elem, Shared.PreparePtr(elem, v).target.fields, 0);
      } else if Shared.IsLeaf(elem) {
        SetLeafIdempotent(h, f, elem, Shared.PreparePtr(elem, v).target);
      }
    case StructType(_, _) =>
      LoadFieldsIdempotent(h, f.typ, v.fields, 0);
    case StringType | IntType(_) | UintType(_) | FloatType(_) =>
      SetLeafIdempotent(h, f, f.typ, v);
    case BoolType | OtherType(_, _) =>
  }

  /**
   * Loading again with the same environment changes nothing: the second walk
   * writes the same values and stops at the same field with the same error.
   */
  lemma {:induction false} LoadFieldsIdempotent(h: Host, t: Type, vs: seq<Value>, i: nat)
    requires t.StructType? && FieldsConform(t.fields, vs) && i <= |vs|
    ensures LoadFields(h, t, LoadFields(h, t, vs, i).vs, i) == LoadFields(h, t, vs, i)
    decreases t, 1
  {
    var os := Outcomes(h, t, vs);
    var r := LoadFields(h, t, vs, i);
    LoadFieldsIsRun(h, t, vs, os, i);
    RunFailFast(os, vs, i);
    forall j | i <= j < |vs|
      ensures os[j] == LoadField(h, t.fields[j], r.vs[j])
    {
      if j <= FirstFailure(os, i) {
        LoadFieldIdempotent(h, t.fields[j], vs[j]);
      }
    }
    LoadFieldsIsRun(h, t, r.vs, os, i);
    RunIdempotent(os, vs, i);
  }
}
