/** The form the todo component binds its input to: the title, status and
    priority being typed, and the change handler that updates one of them. */
module FormState {
  import opened TaskList

  datatype Form = Form(title: string, status: string, priority: string)

  /** The names an input may carry: the keys of the form record. */
  datatype Field = Title | Status | Priority

  /** The form at mount and after an edit submit. */
  const DEFAULT_FORM := Form("", PENDING, DEFAULT_PRIORITY)

  /** The value the form holds under a field name. */
  function Get(form: Form, field: Field): string {
    match field
    case Title => form.title
    case Status => form.status
    case Priority => form.priority
  }

  /** The input-change handler: the named field takes the value, the others keep theirs. */
  function SetField(form: Form, field: Field, value: string): (r: Form)
    ensures Get(r, field) == value
    ensures forall other: Field | other != field :: Get(r, other) == Get(form, other)
  {
    match field
    case Title => form.(title := value)
    case Status => form.(status := value)
    case Priority => form.(priority := value)
  }

  /** A later change to the same field overwrites an earlier one. */
  lemma SetFieldLastWins(form: Form, field: Field, first: string, second: string)
    ensures SetField(SetField(form, field, first), field, second) == SetField(form, field, second)
  {
  }

  /** Changes to two different fields can be made in either order. */
  lemma SetFieldCommutes(form: Form, f: Field, x: string, g: Field, y: string)
    requires f != g
    ensures SetField(SetField(form, f, x), g, y) == SetField(SetField(form, g, y), f, x)
  {
  }

  /** Writing back the value a field already holds changes nothing. */
  lemma SetFieldToCurrentIsNoOp(form: Form, field: Field)
    ensures SetField(form, field, Get(form, field)) == form
  {
  }
}
