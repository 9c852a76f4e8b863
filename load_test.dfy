/**
 * The TestLoad scenario of load_test.go for the walker of load.go: a zero
 * testConfig loaded from an environment that sets every tagged variable ends
 * up equal to testConfSample. The float fields receive whatever the float
 * parser returns for their text, which the scenario requires to be a success.
 */
module EnvconfigLoadTest {
  import opened Wrappers
  import opened Strconv
  import opened Os
  import opened Reflect
  import opened Walk
  import opened EnvconfigLoad

  /** testStruct1 and testStruct2: one string field tagged with the given key. */
  function OneString(name: string, key: string): Type
  {
    StructType(name, [Field("String", Some(key), StringType)])
  }

  /**
   * testConfig's fields, in declaration order. The struct is described field
   * by field rather than as one literal list, which keeps the proofs small.
   */
  predicate IsConfigFields(fs: seq<Field>)
  {
    && |fs| == 12
    && fs[0] == Field("String", Some("STRING"), StringType)
    && fs[1] == Field("StringPtr", Some("STRING_PTR"), PtrType(StringType))
    && fs[2] == Field("Int", Some("INT"), IntType(NativeSize))
    && fs[3] == Field("IntPtr", Some("INT_PTR"), PtrType(IntType(NativeSize)))
    && fs[4] == Field("Uint", Some("UINT"), UintType(NativeSize))
    && fs[5] == Field("UintPtr", Some("UINT_PTR"), PtrType(UintType(NativeSize)))
    && fs[6] == Field("Float32", Some("FLOAT32"), FloatType(F32))
    && fs[7] == Field("Float32Ptr", Some("FLOAT32_PTR"), PtrType(FloatType(F32)))
    && fs[8] == Field("Float64", Some("FLOAT64"), FloatType(F64))
    && fs[9] == Field("Float64Ptr", Some("FLOAT64_PTR"), PtrType(FloatType(F64)))
    && fs[10] == Field("Struct", None, OneString("testStruct1", "STRUCT1_STRING"))
    && fs[11] == Field("StructPtr", None, PtrType(OneString("testStruct2", "STRUCT2_STRING")))
  }

  /** The variables TestLoad sets, each with the text it sets. */
  predicate TestEnv(env: Env)
  {
    && "STRING" in env && env["STRING"] == "string"
    && "STRING_PTR" in env && env["STRING_PTR"] == "string_ptr"
    && "INT" in env && env["INT"] == "1001"
    && "INT_PTR" in env && env["INT_PTR"] == "1002"
    && "UINT" in env && env["UINT"] == "2001"
    && "UINT_PTR" in env && env["UINT_PTR"] == "2002"
    && "FLOAT32" in env && "FLOAT32_PTR" in env && "FLOAT64" in env && "FLOAT64_PTR" in env
    && "STRUCT1_STRING" in env && env["STRUCT1_STRING"] == "struct1_string"
    && "STRUCT2_STRING" in env && env["STRUCT2_STRING"] == "struct2_string"
  }

  /** The float parser accepts the text of the four float variables. */
  predicate FloatsParse(h: Host)
    requires TestEnv(h.env)
  {
    && h.parseFloat(h.env["FLOAT32"], h.uintSize).err.None?
    && h.parseFloat(h.env["FLOAT32_PTR"], h.uintSize).err.None?
    && h.parseFloat(h.env["FLOAT64"], h.uintSize).err.None?
    && h.parseFloat(h.env["FLOAT64_PTR"], h.uintSize).err.None?
  }

  /** What the float parser makes of a variable's text. */
  function FloatOf(h: Host, key: string): Value
    requires key in h.env
  {
    FloatVal(h.parseFloat(h.env[key], h.uintSize).value)
  }

  /** The zero testConfig of `var conf testConfig`, field by field. */
  predicate IsZeroConfig(vs: seq<Value>)
  {
    && |vs| == 12
    && vs[0] == StrVal("") && vs[1] == NilPtr
    && vs[2] == IntVal(0) && vs[3] == NilPtr
    && vs[4] == UintVal(0) && vs[5] == NilPtr
    && vs[6] == FloatVal(0) && vs[7] == NilPtr
    && vs[8] == FloatVal(0) && vs[9] == NilPtr
    && vs[10] == StructVal([StrVal("")]) && vs[11] == NilPtr
  }

  /** testConfSample, field by field, with the float fields as the float parser reads them. */
  predicate IsTestConfSample(h: Host, vs: seq<Value>)
    requires TestEnv(h.env)
  {
    && |vs| == 12
    && vs[0] == StrVal("string") && vs[1] == PtrTo(StrVal("string_ptr"))
    && vs[2] == IntVal(1001) && vs[3] == PtrTo(IntVal(1002))
    && vs[4] == UintVal(2001) && vs[5] == PtrTo(UintVal(2002))
    && vs[6] == FloatOf(h, "FLOAT32") && vs[7] == PtrTo(FloatOf(h, "FLOAT32_PTR"))
    && vs[8] == FloatOf(h, "FLOAT64") && vs[9] == PtrTo(FloatOf(h, "FLOAT64_PTR"))
    && vs[10] == StructVal([StrVal("struct1_string")]) && vs[11] == PtrTo(StructVal([StrVal("struct2_string")]))
  }

  /** `var conf testConfig` holds the zero value of every field. */
  lemma ZeroConfig(fs: seq<Field>)
    requires IsConfigFields(fs)
    ensures IsZeroConfig(ZeroFields(fs))
  {
    var zs := ZeroFields(fs);
    assert zs[10] == Zero(fs[10].typ);
    assert ZeroFields(fs[10].typ.fields) == [StrVal("")];
  }

  lemma DecimalTexts()
    ensures FormatInt(1001) == "1001" && FormatInt(1002) == "1002"
    ensures FormatUint(2001) == "2001" && FormatUint(2002) == "2002"
  {
    assert FormatUint(1) == "1" && FormatUint(2) == "2" && FormatUint(0) == "0";
    assert FormatUint(10) == "10" && FormatUint(20) == "20";
    assert FormatUint(100) == "100" && FormatUint(200) == "200";
  }

  /** The string fields, direct and behind a pointer, take the test's text. */
  lemma StringOutcomes(h: Host, fs: seq<Field>, zs: seq<Value>)
    requires IsConfigFields(fs) && IsZeroConfig(zs) && TestEnv(h.env)
    ensures LoadField(h, fs[0], zs[0]) == Outcome(StrVal("string"), None)
    ensures LoadField(h, fs[1], zs[1]) == Outcome(PtrTo(StrVal("string_ptr")), None)
  {
  }

  /** The int field takes the test's value. */
  lemma IntOutcome(h: Host, fs: seq<Field>, zs: seq<Value>)
    requires IsConfigFields(fs) && IsZeroConfig(zs) && TestEnv(h.env)
    ensures LoadField(h, fs[2], zs[2]) == Outcome(IntVal(1001), None)
  {
    DecimalTexts();
    IntFieldFromDecimal(h, fs[2], zs[2], 1001);
  }

  /** The nil pointer to int is allocated and takes the test's value. */
  lemma IntPtrOutcome(h: Host, fs: seq<Field>, zs: seq<Value>)
    requires IsConfigFields(fs) && IsZeroConfig(zs) && TestEnv(h.env)
    ensures LoadField(h, fs[3], zs[3]) == Outcome(PtrTo(IntVal(1002)), None)
  {
    DecimalTexts();
    ParseIntFormat(1002, h.uintSize);
  }

  /** The uint fields, direct and behind a pointer, take the test's values. */
  lemma UintOutcomes(h: Host, fs: seq<Field>, zs: seq<Value>)
    requires IsConfigFields(fs) && IsZeroConfig(zs) && TestEnv(h.env)
    ensures LoadField(h, fs[4], zs[4]) == Outcome(UintVal(2001), None)
    ensures LoadField(h, fs[5], zs[5]) == Outcome(PtrTo(UintVal(2002)), None)
  {
    DecimalTexts();
    ParseUintFormat(2001, h.uintSize);
    ParseUintFormat(2002, h.uintSize);
  }

  /** The float fields take what the float parser gives. */
  lemma FloatOutcomes(h: Host, fs: seq<Field>, zs: seq<Value>)
    requires IsConfigFields(fs) && IsZeroConfig(zs) && TestEnv(h.env) && FloatsParse(h)
    ensures LoadField(h, fs[6], zs[6]) == Outcome(FloatOf(h, "FLOAT32"), None)
    ensures LoadField(h, fs[7], zs[7]) == Outcome(PtrTo(FloatOf(h, "FLOAT32_PTR")), None)
    ensures LoadField(h, fs[8], zs[8]) == Outcome(FloatOf(h, "FLOAT64"), None)
    ensures LoadField(h, fs[9], zs[9]) == Outcome(PtrTo(FloatOf(h, "FLOAT64_PTR")), None)
  {
  }

  /** A struct of one string field, its variable set, walked from its zero value. */
  lemma OneStringLoads(h: Host, t: Type, name: string, key: string)
    requires t == OneString(name, key) && Present(h.env, key)
    ensures LoadFields(h, t, [StrVal("")], 0) == Loaded([StrVal(h.env[key])], None)
  {
  }

  /** The struct field, and the nil pointer to a struct, take the test's values. */
  lemma StructOutcomes(h: Host, fs: seq<Field>, zs: seq<Value>)
    requires IsConfigFields(fs) && IsZeroConfig(zs) && TestEnv(h.env)
    ensures LoadField(h, fs[10], zs[10]) == Outcome(StructVal([StrVal("struct1_string")]), None)
    ensures LoadField(h, fs[11], zs[11]) == Outcome(PtrTo(StructVal([StrVal("struct2_string")])), None)
  {
    OneStringLoads(h, fs[10].typ, "testStruct1", "STRUCT1_STRING");
    OneStringLoads(h, fs[11].typ.elem, "testStruct2", "STRUCT2_STRING");
    assert PreparePtr(fs[11].typ.elem, zs[11]).target.fields == [StrVal("")];
  }

  /** Twelve outcomes without an error: the walk's first failure is past the end. */
  lemma NoFieldFails<E>(os: seq<Outcome<E>>)
    requires |os| == 12
    requires os[0].err.None? && os[1].err.None? && os[2].err.None? && os[3].err.None?
    requires os[4].err.None? && os[5].err.None? && os[6].err.None? && os[7].err.None?
    requires os[8].err.None? && os[9].err.None? && os[10].err.None? && os[11].err.None?
    ensures FirstFailure(os, 0) == 12
  {
    assert FirstFailure(os, 11) == 12;
    assert FirstFailure(os, 10) == 12;
    assert FirstFailure(os, 9) == 12;
    assert FirstFailure(os, 8) == 12;
    assert FirstFailure(os, 7) == 12;
    assert FirstFailure(os, 6) == 12;
    assert FirstFailure(os, 5) == 12;
    assert FirstFailure(os, 4) == 12;
    assert FirstFailure(os, 3) == 12;
    assert FirstFailure(os, 2) == 12;
    assert FirstFailure(os, 1) == 12;
  }

  /**
   * TestLoad: loading the zero testConfig from an environment that sets every
   * tagged variable as the test does (with floats the float parser accepts)
   * reports no error and gives exactly testConfSample.
   */
  lemma TestLoad(h: Host, t: Type)
    requires t.StructType? && t.name == "testConfig" && IsConfigFields(t.fields)
    requires TestEnv(h.env) && FloatsParse(h)
    ensures var r := LoadFields(h, t, ZeroFields(t.fields), 0);
      r.err.None? && IsTestConfSample(h, r.vs)
  {
    var fs := t.fields;
    var zs := ZeroFields(fs);
    ZeroConfig(fs);
    StringOutcomes(h, fs, zs);
    IntOutcome(h, fs, zs);
    IntPtrOutcome(h, fs, zs);
    UintOutcomes(h, fs, zs);
    FloatOutcomes(h, fs, zs);
    StructOutcomes(h, fs, zs);
    NoFieldFails(Outcomes(h, t, zs));
    LoadFieldsFailFast(h, t, zs, 0);
  }
}
