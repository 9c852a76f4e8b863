# go-envconfig in Dafny

This project models the core of `go-envconfig`, a Go library that fills the fields of a caller's struct from environment variables named by the fields' `env` struct tags. The core has three parts:

- **The struct walker `Load`/`load`, in two revisions.** `load.go` is module `EnvconfigLoad`. `loader.go` is module `EnvconfigLoader`.
  - `Load` accepts only a non-nil pointer to a struct. Anything else is refused with an `InvalidLoadError`.
  - `load` visits the fields in declaration order and allocates nil pointers to the kinds it handles.
  - A string field takes the variable's text. An integer, unsigned or float field takes the parsed value.
  - Nested structs are walked recursively.
  - The first error ends the walk. An error from inside a pointer-to-struct field is dropped; one from a plain struct field is returned.
  - The revisions differ in two ways:
    - In `load.go` a tagged field of a kind the walker does not handle is an `InvalidTypeError`. `loader.go` skips it.
    - In `load.go` a failed parse is an `InvalidTypeError`. In `loader.go` it is an error reading "envconfig: failed to parse KEY as KIND: …" that wraps the `strconv.NumError`.
- **The single-value parser `Parse` of `parse.go`** (module `Envparser`). It checks its argument, checks the pointed-to kind against a fixed list, and looks the key up. A `parser` object then parses the text at the target's own bit size. It writes the target even when the parse fails, and records the failure in its `err` field.
- **The message of `InvalidLoadError`** (module `EnvconfigErrors`).

## Supporting modules

- **`Reflect`** stands in for Go's `reflect` package:
  - A `Type` describes a struct as an ordered list of fields, each with its name, the value under its `env` tag key (if that key is present) and its type.
  - A `Value` is a tree that follows its type. A pointer is either `NilPtr` or a box holding its target.
  - The caller's variable that `Load` and `Parse` write through is a `Var` object.
  - An `interface{}` argument is an `Any`: nil, a non-pointer value, a nil pointer or a pointer to a `Var`.
- **`Strconv`** models `strconv.ParseInt` and `strconv.ParseUint` in base 10, with Go's order of checks:
  - An optional sign for `ParseInt`.
  - `ParseUint` stops at the first non-digit (a syntax error, value 0, also for empty text) or at the first digit past the width's maximum (a range error, value the maximum).
  - `ParseInt` scans its magnitude as `ParseUint` does at the same bit size, and only then checks the signed range. Either kind of overflow is a range error whose value is the bound of the sign. So at 8 bits "300x" is a range error (127), because its digits pass 255 before the "x", while "200x" is a syntax error (`Strconv.OverflowBeforeNonDigit`).
- **`Os`** holds the environment, a `map<string, string>`. Its `Host` record also carries two things:
  - `bits.UintSize` (32 or 64)
  - the float parser, which is a parameter
- **`EnvconfigLoadTest`** states the `TestLoad` scenario of `load_test.go`. It describes `testConfig`, its zero value and `testConfSample` field by field.
- **`Walk`** states the walker's fail-fast loop once, for any per-field outcomes. Both revisions are proved equal to it (`LoadFieldsIsRun`).

## How the proofs are organised

`load`'s indexed loop is the method `LoadStruct`. It works on the current struct value and is proved equal to the function `LoadFields`. `Load` writes the result back through the pointer.

The properties are lemmas about `LoadFields` and `LoadField`:

- fail-fast order
- which fields keep their values
- which errors are propagated or dropped
- idempotence
- in `loader.go`, that the only possible error is a wrapped parse error for a variable that is set

Properties beyond what the Go comments or tests state, which follow directly from the code:

- **Integers are parsed at the host's width, then narrowed.** Both walkers parse every integer field at `bits.UintSize`, whatever its declared width, and then store it with Go's integer conversion. So an `int8` field given "300" on a 64-bit host gets 44 and no error (`EnvconfigLoad.NarrowFieldTruncates`).
- **Nil pointers are allocated even without a variable.** A schema with no `env` tags anywhere loads without error (`NoTagsNoError`), but the walk still allocates every nil pointer to a handled kind, so such pointers do change.
- **A swallowed error also stops the inner walk.** The error of a pointer-to-struct field is dropped, but it still ends the walk of that inner struct. The inner fields after the failing one are not read, even when their variables are set (`PointerStructStopsSilently`, `SwallowedErrorSkipsLaterField`).
- **Self-referential types do not terminate.** For a type such as `type Node struct{ Next *Node }`, `load` allocates `Next`, walks the new `Node`, finds its `Next` nil again, and so on without end, whether or not any field is tagged. Both revisions do this (load.go:32-34, loader.go:33-35). `Type` is an inductive datatype, so such a type cannot be described here; see "## Left out".
- **A non-nil non-struct pointer is reported as nil.** `Load` given a non-nil pointer to a non-struct reports it as "Load(nil *T)" (`NonStructPointerMessage`).

## Model

| member | source | states |
|---|---|---|
| Strconv.ParseUint | parse.go:94 | the value is at most the width's maximum; an error names ParseUint and the input, and its value is the maximum for a range error and 0 for a syntax error |
| Strconv.ParseInt | parse.go:85 | the value lies in the signed range of the width; an error names ParseInt and the input; a syntax error has the value 0; a range error has the minimum for text starting with '-' and the maximum otherwise |
| Strconv.ParseIntCases | parse.go:85 | classifies every input by its sign and the digit prefix of the magnitude after it: an empty magnitude or a trailing non-digit is a syntax error, a magnitude whose digit prefix passes the width's unsigned maximum (whatever follows), or an all-digit magnitude beyond the signed range, is a range error with the bound of the sign, otherwise the signed value |
| Strconv.ParseIntSucceeds | parse.go:85 | ParseInt succeeds exactly when the text after an optional sign is a non-empty run of digits whose signed value fits the width, and then returns that signed value |
| Strconv.OverflowBeforeNonDigit | parse.go:85 | at 8 bits, "300x" and "-300x" are range errors with 127 and -128, because the digits overflow before the non-digit, while "200x" is a syntax error with 0 |
| Strconv.ParseUintCases | parse.go:94 | classifies every input by its digit prefix: an empty prefix or a trailing non-digit is a syntax error, an overflow within the prefix is a range error, otherwise the prefix's value |
| Strconv.ParseUintSucceeds | parse.go:94 | ParseUint succeeds exactly on non-empty all-digit text whose value fits, and then returns that value |
| Strconv.FormatUintValue | parse_test.go:136 | the decimal text of n reads back as n |
| Strconv.ParseUintFormat | parse_test.go:128-153 | the decimal text of n parses back to n when it fits, and otherwise is a range error with the maximum |
| Strconv.ParseIntFormat | parse_test.go:73-98 | the decimal text of any integer parses back to it when it fits the width, and otherwise is a range error with the nearer bound |
| Strconv.MaxWithZeroAppended | parse_test.go:104-110 | the largest value with "0" appended is a range error for both parsers at every width |
| Strconv.LeadingLetterIsSyntaxError | parse_test.go:105-106 | text beginning with a letter, such as "zero", is a syntax error with the value 0 for both parsers |
| Reflect.KindStringRoundTrip | loader.go:172 | the text reflect.Kind.String gives for a kind names that kind and no other |
| Reflect.TypeString | errors.go:18-21 | a pointer type prints as '*' before its element type's text, and an unnamed basic type as the name of its kind |
| Reflect.TypeOf | load.go:18 | reflect.TypeOf gives no type exactly for a nil interface, a pointer kind exactly for a nil or non-nil pointer, and the pointer type of a variable's type for a pointer to it |
| Os.LookupEnv | load.go:119 | a value exactly when the name is non-empty and the variable is set, and then the variable's value; the empty name is never set |
| Reflect.Zero | load.go:99 | the zero value made by reflect.New fits its type, and the zero of a pointer type is nil |
| Reflect.StoredInt | load.go:147 | SetInt's conversion lands in the field's range, keeps any value already in range, and differs from its input by a multiple of 2 to the width |
| Reflect.StoredUint | load.go:163 | SetUint's conversion lands in the field's range, keeps any value already in range, and differs from its input by a multiple of 2 to the width |
| EnvconfigErrors.Error | errors.go:13-22 | every message starts with "envconfig: Load(" and ends with ")" |
| EnvconfigErrors.ErrorForm | errors.go:13-22 | no type reads as Load(nil), a non-pointer type T as Load(non-pointer T), any pointer type T as Load(nil T), and the type's text can be read back |
| EnvconfigErrors.ErrorDetermined | errors.go:13-22 | equal messages come from type descriptions with the same form and text |
| EnvconfigLoad.HasTag | load.go:103-107 | true exactly when the struct tag has the key env, whatever its value, the empty text included |
| EnvconfigLoad.GetTag | load.go:109-111 | the value under the key env when present, and "" when absent |
| EnvconfigLoad.Lookup | load.go:113-125 | no tag gives ("", "", false); a tag whose variable is unset gives (key, "", false); a set one gives (key, value, true) |
| EnvconfigLoad.PreparePtr | load.go:97-101 | the result is a non-nil pointer to a value of the element type: a fresh zero value when the pointer was nil, the same pointer otherwise |
| EnvconfigLoad.PreparePtrIdempotent | loader.go:94-98 | preparing a pointer twice is the same as preparing it once |
| EnvconfigLoad.LookupAndSetString | load.go:127-134 | the field takes the variable's text verbatim when it is set and keeps its value otherwise |
| EnvconfigLoad.LookupAndSetInt | load.go:136-150 | an error exactly when the variable is set and ParseInt at bits.UintSize fails; then InvalidTypeError with the key and type, field unwritten; otherwise the parsed value converted to the field's width, or no change when unset |
| EnvconfigLoad.LookupAndSetUint | load.go:152-166 | the same with ParseUint |
| EnvconfigLoad.LookupAndSetFloat | load.go:168-182 | the same with the float parser |
| EnvconfigLoad.LoadField | load.go:29-91 | one field's handling keeps the value's shape (`Conforms`: the same kind, pointer and struct layout as the field's type; integer ranges are not part of it), and the only error it reports is an InvalidTypeError |
| EnvconfigLoad.LoadFields | load.go:25-92 | the walk from field i keeps the fields before i, keeps every value's shape (`Conforms`), and the only error it reports is an InvalidTypeError |
| EnvconfigLoad.LoadStruct | load.go:24-95 | the loop over the fields yields exactly the struct value and error of the walk LoadFields |
| EnvconfigLoad.Load | load.go:15-22 | anything but a non-nil pointer to a struct gives InvalidLoadError with reflect.TypeOf of the argument and writes nothing; otherwise the variable holds the walk's result and the walk's error is returned |
| EnvconfigLoad.NonStructPointerMessage | load.go:17-18 | a non-nil pointer to a non-struct is refused, and its message reads Load(nil *T) |
| EnvconfigLoad.LoadFieldsIsRun | load.go:25-94 | the loop handles each field from the value it started with, so it is the fail-fast Run over every field's own outcome |
| EnvconfigLoad.LoadFieldsFailFast | load.go:25-94 | fields before the start and after the first failing field keep their values, the fields up to and including it get their own outcome, and the error is the failing field's |
| EnvconfigLoad.LoadFieldsNoFailure | load.go:25-94 | when no field fails, every field gets its own outcome and no error is reported |
| EnvconfigLoad.UnsetLeafKept | load.go:113-166 | a string, integer or float field that is untagged or whose variable is unset keeps its value, with no error |
| EnvconfigLoad.EmptyTagKeepsString | load.go:112-124 | a string field tagged `env:""` keeps its value with no error, whatever the environment holds under the empty name |
| EnvconfigLoad.UnsetLeafPointer | load.go:36-57 | a pointer to such a field whose variable is unset is allocated if nil and otherwise left as it was |
| EnvconfigLoad.SetStringField | load.go:127-134 | a string field or pointer to string whose variable is set receives the text verbatim |
| EnvconfigLoad.IntFieldFromDecimal | load.go:136-150 | an integer field of any width given a decimal integer gets it converted to its width if it fits bits.UintSize, and InvalidTypeError with the field unwritten otherwise |
| EnvconfigLoad.UintFieldFromDecimal | load.go:152-166 | the same for unsigned fields |
| EnvconfigLoad.NarrowFieldTruncates | load.go:142-147 | an int8 field given "300" on a 64-bit host gets 44 and no error |
| EnvconfigLoad.PointerStructSwallowsErrors | load.go:32-34 | a pointer-to-struct field never reports an error, and holds the inner walk's values |
| EnvconfigLoad.PointerStructStopsSilently | load.go:32-34 | an error inside a pointer-to-struct field is not reported, yet the inner fields after the first failing one keep the values they had |
| EnvconfigLoad.SwallowedErrorSkipsLaterField | load.go:32-34 | with Inner{I int env:"I"; S string env:"S"} behind a nil pointer and I="x", the pointer is allocated, S stays "" although its variable is set, and no error is reported |
| EnvconfigLoad.StructFieldPropagates | load.go:64-67 | a struct field reports its inner walk's error and keeps the inner writes made before it |
| EnvconfigLoad.UnsupportedField | load.go:58-61 | a field of an unhandled kind, or a pointer to one, is never written and is an InvalidTypeError with its tag and type exactly when it has an env tag |
| EnvconfigLoad.NoTagsNoError | load.go:24-95 | a struct with no env tag anywhere loads without error |
| EnvconfigLoad.LoadFieldsIdempotent | load.go:24-95 | walking again in the same environment gives the same values and the same error |
| EnvconfigLoadTest.ZeroConfig | load_test.go:83 | the zero testConfig has "" and 0 in its direct fields, nil in its pointers and an empty string in the nested struct |
| EnvconfigLoadTest.StringOutcomes | load_test.go:45-46 | the String and StringPtr fields take "string" and a pointer to "string_ptr" |
| EnvconfigLoadTest.IntOutcome | load_test.go:47 | the Int field takes 1001 |
| EnvconfigLoadTest.IntPtrOutcome | load_test.go:48 | the IntPtr field is allocated and takes 1002 |
| EnvconfigLoadTest.UintOutcomes | load_test.go:49-50 | the Uint and UintPtr fields take 2001 and a pointer to 2002 |
| EnvconfigLoadTest.FloatOutcomes | load_test.go:51-54 | the four float fields take what the float parser returns for their text |
| EnvconfigLoadTest.OneStringLoads | load_test.go:59-65 | a struct of one tagged string field, walked from its zero value, takes the variable's text with no error |
| EnvconfigLoadTest.StructOutcomes | load_test.go:55-56 | the Struct field and the nil StructPtr field take "struct1_string" and a pointer to "struct2_string" |
| EnvconfigLoadTest.NoFieldFails | load_test.go:84-87 | twelve outcomes without an error leave the walk no failing field |
| EnvconfigLoadTest.TestLoad | load_test.go:67-90 | loading the zero testConfig from the test's environment reports no error and gives exactly testConfSample, field by field |
| Walk.RunFailFast | load.go:25-94 | the fail-fast loop writes each field up to and including the first failing one and no other, and returns that field's error |
| Walk.RunIdempotent | loader.go:25-92 | running the loop again with the same outcomes over its own result changes nothing |
| EnvconfigLoader.WrapParseError | loader.go:171-173 | the error unwraps to the parse error it wraps, and carries the key and the value's kind |
| EnvconfigLoader.Message | loader.go:172 | an InvalidLoadError's text starts with "envconfig: Load("; a wrapped parse error's text starts with "envconfig: failed to parse " and ends with the parse error's text |
| EnvconfigLoader.WrapParseErrorForm | loader.go:171-173 | the wrapped error unwraps to the parse error, and its text is "envconfig: failed to parse KEY as KIND: " followed by the parse error's text |
| EnvconfigLoader.MessagesDistinct | loader.go:171-173 | a wrapped parse error's text never equals an InvalidLoadError's |
| EnvconfigLoader.LookupAndSetInt | loader.go:109-123 | an error exactly when the variable is set and ParseInt fails, then the wrapped parse error with the key and kind and the field unwritten; otherwise the converted value, or no change when unset |
| EnvconfigLoader.LookupAndSetUint | loader.go:125-139 | the same with ParseUint |
| EnvconfigLoader.LookupAndSetFloat | loader.go:141-155 | the same with the float parser |
| EnvconfigLoader.LoadField | loader.go:30-88 | one field's handling keeps the value's shape (`Conforms`: the same kind, pointer and struct layout as the field's type; integer ranges are not part of it), and the only error it reports is a wrapped parse error |
| EnvconfigLoader.LoadFields | loader.go:26-89 | the walk from field i keeps the fields before i, keeps every value's shape (`Conforms`), and the only error it reports is a wrapped parse error |
| EnvconfigLoader.LoadStruct | loader.go:25-92 | the loop over the fields yields exactly the struct value and error of LoadFields |
| EnvconfigLoader.Load | loader.go:16-23 | anything but a non-nil pointer to a struct gives InvalidLoadError and writes nothing; otherwise the variable holds the walk's result |
| EnvconfigLoader.LoadFieldsIsRun | loader.go:25-92 | the loop is the fail-fast Run over every field's own outcome |
| EnvconfigLoader.LoadFieldsFailFast | loader.go:25-92 | fields after the first failing one keep their values, those up to it get their own outcome, and the error is the failing field's |
| EnvconfigLoader.ErrorIsParseFailure | loader.go:25-92 | the only error a walk can report is a wrapped parse error for a key that is set in the environment |
| EnvconfigLoader.UnsupportedFieldSkipped | loader.go:59-60 | a field of an unhandled kind, or a pointer to one, is left unchanged with no error, tagged or not |
| EnvconfigLoader.PointerStructSwallowsErrors | loader.go:33-35 | a pointer-to-struct field never reports an error |
| EnvconfigLoader.IntFieldOutOfRange | loader.go:109-123 | an integer outside bits.UintSize's range leaves the field unwritten and wraps ParseInt's range error with the key and kind |
| EnvconfigLoader.IntFieldInRange | loader.go:109-123 | an integer within bits.UintSize's range is stored converted to the field's width |
| EnvconfigLoader.UintFieldFromDecimal | loader.go:125-139 | an unsigned field gets a fitting decimal value converted to its width, and a wrapped range error otherwise |
| EnvconfigLoader.IntFieldSyntaxError | loader.go:115-118 | text beginning with a letter gives a wrapped syntax error and leaves the field unwritten |
| EnvconfigLoader.LoadFieldsIdempotent | loader.go:25-92 | walking again in the same environment gives the same values and the same error |
| Envparser.IsSupportedKind | parse.go:33-41 | the search answers true exactly for the kinds in supportedKinds |
| Envparser.ArmOf | parse.go:55-80 | the string arm is taken for String, an integer arm exactly for the int kinds, an unsigned arm exactly for the uint kinds |
| Envparser.ArmOfSupported | parse.go:78-79 | the switch falls to its default arm exactly for the kinds outside supportedKinds |
| Envparser.ArmBits | parse.go:58-77 | each integer kind is parsed at its own width: 8, 16, 32, 64, or bits.UintSize for int and uint |
| Envparser.ParseValue | parse.go:49-83 | an absent key gives NotPresentError with the target and err untouched; otherwise parse returns the err field, and err changes only to an UnsupportedTypeError for the target's type or a ParseError for this key and type |
| Envparser.Parser.constructor | parse.go:28 | a new parser holds the key and the target and no error |
| Envparser.Parser.ParseAndSetInt | parse.go:85-91 | the target is set to what ParseInt returned even on failure, and a failure is recorded as a ParseError in err |
| Envparser.Parser.ParseAndSetUint | parse.go:93-99 | the same with ParseUint |
| Envparser.Parser.Parse | parse.go:49-83 | the target, the err field and the result are those of ParseValue: NotPresentError for an absent key, then the arm for the target's kind |
| Envparser.Parse | parse.go:19-31 | a nil, non-pointer or nil-pointer argument gives InvalidArgError; an unsupported kind gives UnsupportedTypeError with the variable unchanged; otherwise the variable and the result are ParseValue's |
| Envparser.AbsentKey | parse.go:50-53 | an absent key gives NotPresentError with the key and leaves the target unchanged |
| Envparser.StringVerbatim | parse.go:56-57 | a string target receives the variable's text verbatim, with no error |
| Envparser.SupportedNeverUnsupported | parse.go:78-79 | for a supported kind the result is never an UnsupportedTypeError |
| Envparser.IntRoundTrip | parse.go:58-67 | a signed target given the decimal text of an integer gets that integer when it fits its own width, and otherwise the nearer bound with a ParseError wrapping a range error |
| Envparser.UintRoundTrip | parse.go:68-77 | an unsigned target gets a fitting value, and otherwise the maximum with a ParseError wrapping a range error |
| Envparser.BoundsRoundTrip | parse_test.go:73-153 | the minimum and maximum of every signed kind, and 0 and the maximum of every unsigned kind, round-trip with no error |
| Envparser.IntMaxWithZeroIsRangeError | parse_test.go:100-126 | the signed maximum with "0" appended is a ParseError wrapping a range error, and the target is set to the maximum |
| Envparser.UintMaxWithZeroIsRangeError | parse_test.go:155-181 | the unsigned maximum with "0" appended is a ParseError wrapping a range error, and the target is set to the maximum |
| Envparser.LetterIsSyntaxError | parse_test.go:104-106 | text beginning with a letter, such as "zero", gives a ParseError wrapping a syntax error and sets the target to 0 |

## Left out

- `reflect` itself is not modelled. Types, struct tags and values are explicit datatypes. A pointer is a box that owns its target, so aliasing between pointers is not modelled. Only the caller's variable is a heap object.
- Environment lookups read a fixed map for the whole call. `os.Setenv` and `os.Clearenv`, and changes to the environment during a call, are not modelled.
- `bits.UintSize` is a parameter, restricted to 32 or 64.
- `strconv.ParseFloat` is not modelled. It is an arbitrary parameter returning a 64-bit pattern or a `NumError`.
- EnvconfigLoad.LookupAndSetFloat: storing into a float32 field does not model the rounding to single precision.
- EnvconfigLoader.LookupAndSetFloat: storing into a float32 field does not model the rounding to single precision.
- Message texts:
  - `strconv.NumError` messages follow the standard library's layout, but the input is placed between quotes without `strconv.Quote`'s escaping, so texts with quotes, backslashes or non-printable characters differ.
  - `reflect.Type.String` gives the name of a struct or other named type as the model records it, and `*` before the element type for pointers. Named basic types, such as `type Port int`, are not distinguished from their underlying type: `Type` gives them no name, so the model prints "int" where Go prints "main.Port".
- The `load_test.go` scenario (`EnvconfigLoadTest.TestLoad`) takes the float fields' values from the float parser, which is a parameter, and requires it to accept their text. It is stated for the `load.go` walker only; `loader.go`'s walker takes the same arms for these fields but the scenario is not stated for it.
- Self-referential types: a struct that reaches itself through a pointer, such as `type Node struct{ Next *Node }`, cannot be described, because `Type` is an inductive datatype. On such a type both revisions of `load` allocate and recurse without end (load.go:32-34, loader.go:33-35). That non-termination is not modelled.
- Unexported fields: `Field` carries no exported flag, so every field is treated as settable. Go's `reflect` panics when `load` writes through an unexported field. This happens in `preparePtr`'s `Set` on a nil pointer field, tagged or not (load.go:99, loader.go:96), and in `SetString`, `SetInt`, `SetUint` or `SetFloat` on a tagged field whose variable is set (load.go:133-179, loader.go:106-152). These panics are not modelled.
- `InvalidArgError`, `UnsupportedTypeError`, `NotPresentError`, `ParseError` and `InvalidTypeError` are declared in files that are not part of this model. They are constructors here, and their message texts are not modelled.
- `internal/testutils/helpers.go` is not part of this model.
