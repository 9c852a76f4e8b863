/**
 * The struct walker of load.go: Load checks that it was given a non-nil
 * pointer to a struct, then load visits the struct's fields in declaration
 * order, allocating nil pointers to supported kinds, setting string, integer,
 * unsigned and float fields from the variable named by their `env` tag,
 * recursing into struct fields, and returning the first error it meets. In this
 * revision a tagged field of a kind it does not handle is an error, and a
 * failed parse is an InvalidTypeError.
 */
module EnvconfigLoad {
  import opened Wrappers
  import opened Strconv
  import opened Os
  import opened Reflect
  import opened EnvconfigErrors
  import opened Walk

  datatype Error =
    | InvalidLoad(cause: InvalidLoadError)
    /** InvalidTypeError: the key and the type of the field that could not be set. */
    | InvalidType(key: string, typ: Type)

  // The tag is modelled as the value under `env`, if that key is present, so
  // the ensures of HasTag and GetTag are definitional: they say what the two
  // helpers read off that abstraction.

  /** hasTag: the struct tag has the key `env`, whatever its value, the empty text included. */
  function HasTag(f: Field): (ok: bool)
    ensures ok <==> exists k :: f.tag == Some(k)
  {
    f.tag.Some?
  }

  /**
   * getTag: the value under `env`, or "" when the key is absent, so that an
   * absent key and an empty value read alike and only hasTag tells them apart.
   */
  function GetTag(f: Field): (k: string)
    ensures HasTag(f) ==> f.tag == Some(k)
    ensures !HasTag(f) ==> k == ""
  {
    if f.tag.Some? then f.tag.value else ""
  }

  /** lookup: the key and the variable's value, and whether both exist. */
  function Lookup(env: Env, f: Field): (r: (string, string, bool))
    ensures !HasTag(f) ==> r == ("", "", false)
    ensures HasTag(f) && !Present(env, GetTag(f)) ==> r == (GetTag(f), "", false)
    ensures HasTag(f) && Present(env, GetTag(f)) ==> r == (GetTag(f), env[GetTag(f)], true)
  {
    match f.tag
    case None => ("", "", false)
    case Some(k) =>
      match LookupEnv(env, k)
      case None => (k, "", false)
      case Some(s) => (k, s, true)
  }

  /** For a field, "its variable is set": it has a tag and the environment has that key. */
  predicate IsSet(env: Env, f: Field)
  {
    f.tag.Some? && Present(env, f.tag.value)
  }

  /** preparePtr: a nil pointer gets a fresh zero value to point to; any other is kept. */
  function PreparePtr(elem: Type, v: Value): (r: Value)
    requires Conforms(v, PtrType(elem))
    ensures r.PtrTo? && Conforms(r.target, elem)
    ensures v.PtrTo? ==> r == v
    ensures v.NilPtr? ==> r.target == Zero(elem)
  {
    if v.NilPtr? then PtrTo(Zero(elem)) else v
  }

  /** preparePtr allocates only when the pointer is nil, so a second call changes nothing. */
  lemma PreparePtrIdempotent(elem: Type, v: Value)
    requires Conforms(v, PtrType(elem))
    ensures PreparePtr(elem, PreparePtr(elem, v)) == PreparePtr(elem, v)
  {
  }

  /** lookupAndSetString: the variable's value, verbatim, when it is set. */
  function LookupAndSetString(env: Env, f: Field, rv: Value): (r: Value)
    ensures r == if IsSet(env, f) then StrVal(env[f.tag.value]) else rv
  {
    var (_, s, ok) := Lookup(env, f);
    if !ok then rv else StrVal(s)
  }

  /**
   * lookupAndSetInt: the variable parsed in base 10 at bits.UintSize whatever
   * the field's own width, stored with Go's conversion to that width; t is the
   * field's (or the pointed-to) type.
   */
  function LookupAndSetInt(h: Host, f: Field, t: Type, rv: Value): (r: Outcome<Error>)
    requires t.IntType? && rv.IntVal?
    ensures r.v.IntVal?
    ensures r.err.Some? <==> IsSet(h.env, f) && ParseInt(h.env[f.tag.value], h.uintSize).err.Some?
    ensures r.err.Some? ==> r == Outcome(rv, Some(InvalidType(f.tag.value, t)))
    ensures !IsSet(h.env, f) ==> r == Outcome(rv, None)
    ensures IsSet(h.env, f) && r.err.None? ==>
              r.v == IntVal(StoredInt(t.isize, h.uintSize, ParseInt(h.env[f.tag.value], h.uintSize).value))
  {
    var (k, s, ok) := Lookup(h.env, f);
    if !ok then Outcome(rv, None)
    else
      var p := ParseInt(s, h.uintSize);
      if p.err.Some? then Outcome(rv, Some(InvalidType(k, t)))
      else Outcome(IntVal(StoredInt(t.isize, h.uintSize, p.value)), None)
  }

  /** lookupAndSetUint: as lookupAndSetInt, with ParseUint. */
  function LookupAndSetUint(h: Host, f: Field, t: Type, rv: Value): (r: Outcome<Error>)
    requires t.UintType? && rv.UintVal?
    ensures r.v.UintVal?
    ensures r.err.Some? <==> IsSet(h.env, f) && ParseUint(h.env[f.tag.value], h.uintSize).err.Some?
    ensures r.err.Some? ==> r == Outcome(rv, Some(InvalidType(f.tag.value, t)))
    ensures !IsSet(h.env, f) ==> r == Outcome(rv, None)
    ensures IsSet(h.env, f) && r.err.None? ==>
              r.v == UintVal(StoredUint(t.usize, h.uintSize, ParseUint(h.env[f.tag.value], h.uintSize).value))
  {
    var (k, s, ok) := Lookup(h.env, f);
    if !ok then Outcome(rv, None)
    else
      var p := ParseUint(s, h.uintSize);
      if p.err.Some? then Outcome(rv, Some(InvalidType(k, t)))
      else Outcome(UintVal(StoredUint(t.usize, h.uintSize, p.value)), None)
  }

  /** lookupAndSetFloat: the variable parsed by ParseFloat at bits.UintSize. */
  function LookupAndSetFloat(h: Host, f: Field, t: Type, rv: Value): (r: Outcome<Error>)
    requires t.FloatType? && rv.FloatVal?
    ensures r.v.FloatVal?
    ensures r.err.Some? <==> IsSet(h.env, f) && h.parseFloat(h.env[f.tag.value], h.uintSize).err.Some?
    ensures r.err.Some? ==> r == Outcome(rv, Some(InvalidType(f.tag.value, t)))
    ensures !IsSet(h.env, f) ==> r == Outcome(rv, None)
    ensures IsSet(h.env, f) && r.err.None? ==> r.v == FloatVal(h.parseFloat(h.env[f.tag.value], h.uintSize).value)
  {
    var (k, s, ok) := Lookup(h.env, f);
    if !ok then Outcome(rv, None)
    else
      var p := h.parseFloat(s, h.uintSize);
      if p.err.Some? then Outcome(rv, Some(InvalidType(k, t)))
      else Outcome(FloatVal(p.value), None)
  }

  /** The kinds the walker handles behind a pointer or directly: string, the integer families, floats. */
  predicate IsLeaf(t: Type)
  {
    t.StringType? || t.IntType? || t.UintType? || t.FloatType?
  }

  /** The arm of load's switch for one leaf field, applied to its value rv. */
  function SetLeaf(h: Host, f: Field, t: Type, rv: Value): (r: Outcome<Error>)
    requires IsLeaf(t) && Conforms(rv, t)
    ensures Conforms(r.v, t)
  {
    match t
    case StringType => Outcome(LookupAndSetString(h.env, f, rv), None)
    case IntType(_) => LookupAndSetInt(h, f, t, rv)
    case UintType(_) => LookupAndSetUint(h, f, t, rv)
    case FloatType(_) => LookupAndSetFloat(h, f, t, rv)
  }

  /**
   * The body of load's loop for one field: the result of the switch on the
   * field's kind. The error of a pointer-to-struct field's recursion is
   * dropped; that of a struct field is kept.
   */
  function LoadField(h: Host, f: Field, v: Value): (r: Outcome<Error>)
    requires Conforms(v, f.typ)
    ensures Conforms(r.v, f.typ)
    ensures r.err.Some? ==> r.err.value.InvalidType?
    decreases f, 0
  {
    match f.typ
    case PtrType(elem) =>
      (match elem
       case StructType(_, _) =>
         var p := PreparePtr(elem, v);
         var inner := LoadFields(h, elem, p.target.fields, 0);
         Outcome(PtrTo(StructVal(inner.vs)), None)
       case StringType | IntType(_) | UintType(_) | FloatType(_) =>
         var p := PreparePtr(elem, v);
         var o := SetLeaf(h, f, elem, p.target);
         Outcome(PtrTo(o.v), o.err)
       case BoolType | PtrType(_) | OtherType(_, _) =>
         if HasTag(f) then Outcome(v, Some(InvalidType(GetTag(f), f.typ))) else Outcome(v, None))
    case StructType(_, _) =>
      var inner := LoadFields(h, f.typ, v.fields, 0);
      Outcome(StructVal(inner.vs), inner.err)
    case StringType | IntType(_) | UintType(_) | FloatType(_) =>
      SetLeaf(h, f, f.typ, v)
    case BoolType | OtherType(_, _) =>
      if HasTag(f) then Outcome(v, Some(InvalidType(GetTag(f), f.typ))) else Outcome(v, None)
  }

  /**
   * load's loop from field i on: each field gets its new value in turn, and
   * the first field that yields an error stops the walk.
   */
  function LoadFields(h: Host, t: Type, vs: seq<Value>, i: nat): (r: Loaded<Error>)
    requires t.StructType? && FieldsConform(t.fields, vs) && i <= |vs|
    ensures FieldsConform(t.fields, r.vs)
    ensures forall j :: 0 <= j < i ==> r.vs[j] == vs[j]
    ensures r.err.Some? ==> r.err.value.InvalidType?
    decreases t, |vs| - i
  {
    if i == |vs| then Loaded(vs, None)
    else
      var o := LoadField(h, t.fields[i], vs[i]);
      var vs' := vs[i := o.v];
      if o.err.Some? then Loaded(vs', o.err) else LoadFields(h, t, vs', i + 1)
  }

  /** load: the loop over the fields of the struct value v of type t. */
  method LoadStruct(h: Host, t: Type, v: Value) returns (out: Value, err: Option<Error>)
    requires t.StructType? && Conforms(v, t)
    ensures out.StructVal? && Loaded(out.fields, err) == LoadFields(h, t, v.fields, 0)
    decreases t
  {
    var fs := t.fields;
    var vals := v.fields;
    var i := 0;
    while i < |fs|
      invariant i <= |fs| && FieldsConform(fs, vals)
      invariant LoadFields(h, t, vals, i) == LoadFields(h, t, v.fields, 0)
    {
      var f := fs[i];
      var fv := vals[i];
      ghost var before := vals;
      ghost var spec := LoadField(h, f, fv);
      assert LoadFields(h, t, before, i) ==
             if spec.err.Some? then Loaded(before[i := spec.v], spec.err) else LoadFields(h, t, before[i := spec.v], i + 1);
      match f.typ {
        case PtrType(elem) =>
          match elem {
            case StructType(_, _) =>
              var p := PreparePtr(elem, fv);
              var inner, _ := LoadStruct(h, elem, p.target);
              vals := vals[i := PtrTo(inner)];
            case StringType | IntType(_) | UintType(_) | FloatType(_) =>
              var p := PreparePtr(elem, fv);
              var o := SetLeaf(h, f, elem, p.target);
              vals := vals[i := PtrTo(o.v)];
              if o.err.Some? {
                return StructVal(vals), o.err;
              }
            case BoolType | PtrType(_) | OtherType(_, _) =>
              if HasTag(f) {
                return StructVal(vals), Some(InvalidType(GetTag(f), f.typ));
              }
          }
        case StructType(_, _) =>
          var inner, e := LoadStruct(h, f.typ, fv);
          vals := vals[i := inner];
          if e.Some? {
            return StructVal(vals), e;
          }
        case StringType | IntType(_) | UintType(_) | FloatType(_) =>
          var o := SetLeaf(h, f, f.typ, fv);
          vals := vals[i := o.v];
          if o.err.Some? {
            return StructVal(vals), o.err;
          }
        case BoolType | OtherType(_, _) =>
          if HasTag(f) {
            return StructVal(vals), Some(InvalidType(GetTag(f), f.typ));
          }
      }
      assert spec.err.None? && vals == before[i := spec.v];
      i := i + 1;
    }
    return StructVal(vals), None;
  }

  /** Load's test of its argument: a pointer, not nil, to a struct. */
  predicate IsStructPointer(conf: Any)
  {
    conf.PointerTo? && KindOf(conf.target.typ) == Struct
  }

  /**
   * Load: any argument but a non-nil pointer to a struct is refused with
   * InvalidLoadError and nothing is written; otherwise the struct is walked in
   * place and the walk's error, if any, is returned.
   */
  method Load(h: Host, conf: Any) returns (err: Option<Error>)
    requires conf.Shaped()
    requires conf.PointerTo? ==> conf.target.Valid()
    modifies if conf.PointerTo? then {conf.target} else {}
    ensures conf.PointerTo? ==> conf.target.Valid()
    ensures !IsStructPointer(conf) ==> err == Some(InvalidLoad(InvalidLoadError(TypeOf(conf))))
    ensures !IsStructPointer(conf) && conf.PointerTo? ==> unchanged(conf.target)
    ensures IsStructPointer(conf) ==>
              conf.target.value.StructVal? &&
              Loaded(conf.target.value.fields, err) == LoadFields(h, conf.target.typ, old(conf.target.value).fields, 0)
  {
    var isPtr := conf.PointerTo? || conf.NilPointer?;
    if !isPtr || conf.NilPointer? || KindOf(conf.target.typ) != Struct {
      return Some(InvalidLoad(InvalidLoadError(TypeOf(conf))));
    }
    var out, e := LoadStruct(h, conf.target.typ, conf.target.value);
    conf.target.value := out;
    return e;
  }

  /** A pointer to something other than a struct is refused with the message for a nil pointer. */
  lemma NonStructPointerMessage(conf: Any)
    requires conf.PointerTo? && !conf.target.typ.StructType?
    ensures !IsStructPointer(conf)
    ensures EnvconfigErrors.Error(InvalidLoadError(TypeOf(conf))) == "envconfig: Load(nil *" + TypeString(conf.target.typ) + ")"
  {
    var x := TypeString(conf.target.typ);
    assert TypeString(PtrType(conf.target.typ)) == "*" + x;
    assert NilPointerPrefix + ("*" + x) + ")" == "envconfig: Load(nil *" + x + ")";
  }

  /** What each field's handling gives, from the values the loop starts with. */
  function Outcomes(h: Host, t: Type, vs: seq<Value>): (os: seq<Outcome<Error>>)
    requires t.StructType? && FieldsConform(t.fields, vs)
    ensures |os| == |vs|
    ensures forall j :: 0 <= j < |vs| ==> os[j] == LoadField(h, t.fields[j], vs[j])
  {
    seq(|vs|, j requires 0 <= j < |vs| => LoadField(h, t.fields[j], vs[j]))
  }

  /**
   * The loop only writes the field it is at, so each field is handled from
   * the value it started with: load's loop is Run over those outcomes.
   */
  lemma {:induction false} LoadFieldsIsRun(h: Host, t: Type, vs: seq<Value>, os: seq<Outcome<Error>>, i: nat)
    requires t.StructType? && FieldsConform(t.fields, vs) && i <= |vs| && |os| == |vs|
    requires forall j :: i <= j < |vs| ==> os[j] == LoadField(h, t.fields[j], vs[j])
    ensures LoadFields(h, t, vs, i) == Run(os, vs, i)
    decreases |vs| - i
  {
    if i < |vs| && os[i].err.None? {
      var vs1 := vs[i := os[i].v];
      forall j | i + 1 <= j < |vs|
        ensures os[j] == LoadField(h, t.fields[j], vs1[j])
      {
        assert vs1[j] == vs[j];
      }
      LoadFieldsIsRun(h, t, vs1, os, i + 1);
    }
  }

  /**
   * Fail-fast, field by field: fields from i up to and including the first
   * failing one get the values their own handling gives them, all others keep
   * theirs, and the walk's error is the failing field's.
   */
  lemma {:induction false} LoadFieldsFailFast(h: Host, t: Type, vs: seq<Value>, i: nat)
    requires t.StructType? && FieldsConform(t.fields, vs) && i <= |vs|
    ensures var r := LoadFields(h, t, vs, i);
      var os := Outcomes(h, t, vs);
      var n := FirstFailure(os, i);
      && |r.vs| == |vs|
      && (forall j :: 0 <= j < i ==> r.vs[j] == vs[j])
      && (forall j :: i <= j <= n && j < |vs| ==> r.vs[j] == os[j].v)
      && (forall j :: n < j < |vs| ==> r.vs[j] == vs[j])
      && r.err == (if n < |vs| then os[n].err else None)
  {
    LoadFieldsIsRun(h, t, vs, Outcomes(h, t, vs), i);
    RunFailFast(Outcomes(h, t, vs), vs, i);
  }

  /** A leaf field that is untagged, or whose variable is unset, keeps its value and raises nothing. */
  lemma UnsetLeafKept(h: Host, f: Field, v: Value)
    requires IsLeaf(f.typ) && Conforms(v, f.typ) && !IsSet(h.env, f)
    ensures LoadField(h, f, v) == Outcome(v, None)
  {
  }

  /**
   * A field tagged `env:""` is never set, whatever the environment holds under
   * the empty name: os.LookupEnv reports the empty name as unset.
   */
  lemma EmptyTagKeepsString(h: Host, f: Field, v: Value)
    requires f.tag == Some("") && f.typ == StringType && v.StrVal?
    ensures LoadField(h, f, v) == Outcome(v, None)
  {
    UnsetLeafKept(h, f, v);
  }

  /**
   * A pointer to a leaf whose variable is unset is allocated if it was nil and
   * is otherwise left exactly as it was.
   */
  lemma UnsetLeafPointer(h: Host, f: Field, v: Value)
    requires f.typ.PtrType? && IsLeaf(f.typ.elem) && Conforms(v, f.typ) && !IsSet(h.env, f)
    ensures LoadField(h, f, v) == Outcome(if v.NilPtr? then PtrTo(Zero(f.typ.elem)) else v, None)
  {
  }

  /** A tagged string field, or pointer to string, whose variable is set receives the value verbatim. */
  lemma SetStringField(h: Host, f: Field, v: Value)
    requires Conforms(v, f.typ) && IsSet(h.env, f)
    requires f.typ == StringType || f.typ == PtrType(StringType)
    ensures LoadField(h, f, v) ==
              Outcome(if f.typ == StringType then StrVal(h.env[f.tag.value]) else PtrTo(StrVal(h.env[f.tag.value])), None)
  {
  }

  /**
   * An integer field, of any declared width, whose variable spells an integer
   * that fits bits.UintSize gets that integer converted to its width; one that
   * does not fit is an InvalidTypeError naming the key and the field's type,
   * and the field is not written.
   */
  lemma IntFieldFromDecimal(h: Host, f: Field, v: Value, i: int)
    requires f.typ.IntType? && Conforms(v, f.typ) && IsSet(h.env, f)
    requires h.env[f.tag.value] == FormatInt(i)
    ensures MinInt(h.uintSize) <= i <= MaxInt(h.uintSize) ==>
              LoadField(h, f, v) == Outcome(IntVal(StoredInt(f.typ.isize, h.uintSize, i)), None)
    ensures !(MinInt(h.uintSize) <= i <= MaxInt(h.uintSize)) ==>
              LoadField(h, f, v) == Outcome(v, Some(InvalidType(f.tag.value, f.typ)))
  {
    ParseIntFormat(i, h.uintSize);
  }

  /** The same for unsigned fields, against the range of bits.UintSize. */
  lemma UintFieldFromDecimal(h: Host, f: Field, v: Value, n: nat)
    requires f.typ.UintType? && Conforms(v, f.typ) && IsSet(h.env, f)
    requires h.env[f.tag.value] == FormatUint(n)
    ensures n <= MaxUint(h.uintSize) ==>
              LoadField(h, f, v) == Outcome(UintVal(StoredUint(f.typ.usize, h.uintSize, n)), None)
    ensures n > MaxUint(h.uintSize) ==>
              LoadField(h, f, v) == Outcome(v, Some(InvalidType(f.tag.value, f.typ)))
  {
    ParseUintFormat(n, h.uintSize);
  }

  /**
   * Because the parse is at bits.UintSize, an int8 field given "300" on a
   * 64-bit host raises no error and is set to 300 truncated to 8 bits, 44.
   */
  lemma NarrowFieldTruncates(h: Host, f: Field, v: Value)
    requires f.typ == IntType(Size8) && Conforms(v, f.typ) && IsSet(h.env, f) && h.uintSize == 64
    requires h.env[f.tag.value] == "300"
    ensures LoadField(h, f, v) == Outcome(IntVal(44), None)
  {
    assert FormatInt(300) == "300";
    IntFieldFromDecimal(h, f, v, 300);
    assert StoredInt(Size8, 64, 300) == 44;
  }

  /** A pointer-to-struct field never reports an error, whatever happens inside it. */
  lemma PointerStructSwallowsErrors(h: Host, f: Field, v: Value)
    requires f.typ.PtrType? && f.typ.elem.StructType? && Conforms(v, f.typ)
    ensures LoadField(h, f, v).err.None?
    ensures LoadField(h, f, v).v == PtrTo(StructVal(LoadFields(h, f.typ.elem, PreparePtr(f.typ.elem, v).target.fields, 0).vs))
  {
  }

  /**
   * The error inside a pointer-to-struct field still ends the inner walk: the
   * inner fields after the first failing one keep the values they had, while
   * the outer walk carries on as if nothing had failed.
   */
  lemma PointerStructStopsSilently(h: Host, f: Field, v: Value)
    requires f.typ.PtrType? && f.typ.elem.StructType? && Conforms(v, f.typ)
    ensures var inner := PreparePtr(f.typ.elem, v).target.fields;
      var n := FirstFailure(Outcomes(h, f.typ.elem, inner), 0);
      var r := LoadField(h, f, v);
      && r.err.None?
      && r.v.PtrTo? && r.v.target.StructVal? && |r.v.target.fields| == |inner|
      && forall j :: n < j < |inner| ==> r.v.target.fields[j] == inner[j]
  {
    LoadFieldsFailFast(h, f.typ.elem, PreparePtr(f.typ.elem, v).target.fields, 0);
  }

  /**
   * With `Outer{P *Inner}` and `Inner{I int `env:"I"`; S string `env:"S"`}`,
   * I="x" fails to parse, so S is never read: P is allocated, S stays "" even
   * though its variable is set, and no error is reported.
   */
  lemma SwallowedErrorSkipsLaterField(h: Host, f: Field)
    requires f.typ == PtrType(StructType("Inner", [Field("I", Some("I"), IntType(NativeSize)), Field("S", Some("S"), StringType)]))
    requires "I" in h.env && h.env["I"] == "x" && "S" in h.env
    ensures LoadField(h, f, NilPtr) == Outcome(PtrTo(StructVal([IntVal(0), StrVal("")])), None)
  {
    var elem := f.typ.elem;
    var zs := [IntVal(0), StrVal("")];
    assert PreparePtr(elem, NilPtr).target.fields == zs;
    LeadingLetterIsSyntaxError("x", h.uintSize);
    assert LoadField(h, elem.fields[0], zs[0]) == Outcome(IntVal(0), Some(InvalidType("I", IntType(NativeSize))));
    assert LoadFields(h, elem, zs, 0) == Loaded(zs, Some(InvalidType("I", IntType(NativeSize))));
  }

  /** A struct field reports the error of its own walk, and keeps the writes made before it. */
  lemma StructFieldPropagates(h: Host, f: Field, v: Value)
    requires f.typ.StructType? && Conforms(v, f.typ)
    ensures LoadField(h, f, v) == Outcome(StructVal(LoadFields(h, f.typ, v.fields, 0).vs), LoadFields(h, f.typ, v.fields, 0).err)
  {
  }

  /** A field of a kind the walker does not handle is an InvalidTypeError exactly when it has an `env` tag. */
  lemma UnsupportedField(h: Host, f: Field, v: Value)
    requires Conforms(v, f.typ)
    requires f.typ.BoolType? || f.typ.OtherType? || (f.typ.PtrType? && !f.typ.elem.StructType? && !IsLeaf(f.typ.elem))
    ensures LoadField(h, f, v).v == v
    ensures LoadField(h, f, v).err.Some? <==> HasTag(f)
    ensures HasTag(f) ==> LoadField(h, f, v).err == Some(InvalidType(GetTag(f), f.typ))
  {
  }

  /** No field anywhere in t carries an `env` tag. */
  predicate NoTags(t: Type)
    decreases t
  {
    match t
    case StructType(_, fs) => forall i :: 0 <= i < |fs| ==> fs[i].tag.None? && NoTags(fs[i].typ)
    case PtrType(e) => NoTags(e)
    case _ => true
  }

  lemma {:induction false} NoTagsFieldNoError(h: Host, f: Field, v: Value)
    requires Conforms(v, f.typ) && f.tag.None? && NoTags(f.typ)
    ensures LoadField(h, f, v).err.None?
    decreases f, 0
  {
    if f.typ.StructType? {
      NoTagsNoError(h, f.typ, v.fields, 0);
    }
  }

  /** A struct with no `env` tag anywhere in it loads without error. */
  lemma {:induction false} NoTagsNoError(h: Host, t: Type, vs: seq<Value>, i: nat)
    requires t.StructType? && FieldsConform(t.fields, vs) && i <= |vs| && NoTags(t)
    ensures LoadFields(h, t, vs, i).err.None?
    decreases t, |vs| - i
  {
    if i < |vs| {
      var o := LoadField(h, t.fields[i], vs[i]);
      NoTagsFieldNoError(h, t.fields[i], vs[i]);
      NoTagsNoError(h, t, vs[i := o.v], i + 1);
    }
  }

  lemma SetLeafIdempotent(h: Host, f: Field, t: Type, rv: Value)
    requires IsLeaf(t) && Conforms(rv, t)
    ensures SetLeaf(h, f, t, SetLeaf(h, f, t, rv).v) == SetLeaf(h, f, t, rv)
  {
  }

  lemma {:induction false} LoadFieldIdempotent(h: Host, f: Field, v: Value)
    requires Conforms(v, f.typ)
    ensures LoadField(h, f, LoadField(h, f, v).v) == LoadField(h, f, v)
    decreases f, 0
  {
    match f.typ
    case PtrType(elem) =>
      if elem.StructType? {
        LoadFieldsIdempotent(h, elem, PreparePtr(elem, v).target.fields, 0);
      } else if IsLeaf(elem) {
        SetLeafIdempotent(h, f, elem, PreparePtr(elem, v).target);
      }
    case StructType(_, _) =>
      LoadFieldsIdempotent(h, f.typ, v.fields, 0);
    case StringType | IntType(_) | UintType(_) | FloatType(_) =>
      SetLeafIdempotent(h, f, f.typ, v);
    case BoolType | OtherType(_, _) =>
  }

  /**
   * Loading again with the same environment changes nothing: the second walk
   * writes the same values and stops at the same field with the same error.
   */
  lemma {:induction false} LoadFieldsIdempotent(h: Host, t: Type, vs: seq<Value>, i: nat)
    requires t.StructType? && FieldsConform(t.fields, vs) && i <= |vs|
    ensures LoadFields(h, t, LoadFields(h, t, vs, i).vs, i) == LoadFields(h, t, vs, i)
    decreases t, 1
  {
    var os := Outcomes(h, t, vs);
    var r := LoadFields(h, t, vs, i);
    LoadFieldsIsRun(h, t, vs, os, i);
    RunFailFast(os, vs, i);
    forall j | i <= j < |vs|
      ensures os[j] == LoadField(h, t.fields[j], r.vs[j])
    {
      if j <= FirstFailure(os, i) {
        LoadFieldIdempotent(h, t.fields[j], vs[j]);
      }
    }
    LoadFieldsIsRun(h, t, r.vs, os, i);
    RunIdempotent(os, vs, i);
  }

  /** When no field's handling fails, every field gets its own outcome's value and the walk reports nothing. */
  lemma LoadFieldsNoFailure(h: Host, t: Type, vs: seq<Value>)
    requires t.StructType? && FieldsConform(t.fields, vs)
    requires forall j :: 0 <= j < |vs| ==> LoadField(h, t.fields[j], vs[j]).err.None?
    ensures LoadFields(h, t, vs, 0).err.None?
    ensures forall j :: 0 <= j < |vs| ==> LoadFields(h, t, vs, 0).vs[j] == LoadField(h, t.fields[j], vs[j]).v
  {
    LoadFieldsFailFast(h, t, vs, 0);
  }
}
