/** The error Load returns for an argument that is not a non-nil pointer to a struct, and its message. */
module EnvconfigErrors {
  import opened Wrappers
  import opened Reflect

  /** InvalidLoadError: carries reflect.TypeOf of the argument, which is no type for a nil interface. */
  datatype InvalidLoadError = InvalidLoadError(typ: Option<Type>)

  const Prefix: string := "envconfig: Load("
  const NilMessage: string := "envconfig: Load(nil)"
  const NonPointerPrefix: string := "envconfig: Load(non-pointer "
  const NilPointerPrefix: string := "envconfig: Load(nil "

  /**
   * InvalidLoadError.Error: no type reads as Load(nil), a non-pointer type T
   * as Load(non-pointer T), and every pointer type T as Load(nil T), whether
   * or not the pointer Load was given was nil.
   */
  function Error(e: InvalidLoadError): (msg: string)
    ensures Prefix <= msg && msg[|msg| - 1] == ')'
  {
    if e.typ.None? then NilMessage
    else if KindOf(e.typ.value) != Ptr then NonPointerPrefix + TypeString(e.typ.value) + ")"
    else NilPointerPrefix + TypeString(e.typ.value) + ")"
  }

  /** The three shapes a message can have, with the type text it names. */
  datatype Form = NilForm | NonPointerForm(typeText: string) | NilPointerForm(typeText: string)

  /** How a reader of a message tells the three shapes apart; None for any other text. */
  function FormOf(msg: string): Option<Form>
  {
    if msg == NilMessage then Some(NilForm)
    else if |msg| > |NonPointerPrefix| && NonPointerPrefix <= msg && msg[|msg| - 1] == ')' then
      Some(NonPointerForm(msg[|NonPointerPrefix|..|msg| - 1]))
    else if |msg| > |NilPointerPrefix| && NilPointerPrefix <= msg && msg[|msg| - 1] == ')' then
      Some(NilPointerForm(msg[|NilPointerPrefix|..|msg| - 1]))
    else None
  }

  /** The form a type description calls for. */
  function ExpectedForm(t: Option<Type>): Form
  {
    match t
    case None => NilForm
    case Some(t) => if KindOf(t) == Ptr then NilPointerForm(TypeString(t)) else NonPointerForm(TypeString(t))
  }

  /** Every message has exactly the form its type calls for, and the type's text can be read back from it. */
  lemma ErrorForm(e: InvalidLoadError)
    ensures FormOf(Error(e)) == Some(ExpectedForm(e.typ))
  {
    var msg := Error(e);
    if e.typ.Some? {
      var t := e.typ.value;
      if KindOf(t) != Ptr {
        assert msg[..|NonPointerPrefix|] == NonPointerPrefix;
        assert msg[|NonPointerPrefix|..|msg| - 1] == TypeString(t);
      } else {
        assert msg[..|NilPointerPrefix|] == NilPointerPrefix;
        assert msg[|NilPointerPrefix|..|msg| - 1] == TypeString(t);
        assert msg != NilMessage by { assert msg[19] == ' '; }
        assert !(NonPointerPrefix <= msg) by { assert msg[17] == 'i'; }
      }
    }
  }

  /** Two errors with different type descriptions give different messages unless the descriptions print alike. */
  lemma ErrorDetermined(e1: InvalidLoadError, e2: InvalidLoadError)
    requires Error(e1) == Error(e2)
    ensures ExpectedForm(e1.typ) == ExpectedForm(e2.typ)
  {
    ErrorForm(e1);
    ErrorForm(e2);
  }
}
