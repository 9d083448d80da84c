/** The sign-in / registration form and the user it builds. There is no
    credential check: submitting always signs in. */
module AuthForm {
  import opened Common
  import opened Users

  datatype Form = Form(name: string, email: string, password: string, university: string, year: string)

  const EmptyForm := Form("", "", "", "", "")

  /** The `name` attribute of the input that changed. */
  datatype Field = NameField | EmailField | PasswordField | UniversityField | YearField

  function Get(f: Form, field: Field): string {
    match field
    case NameField => f.name
    case EmailField => f.email
    case PasswordField => f.password
    case UniversityField => f.university
    case YearField => f.year
  }

  /** `handleInputChange`: `{...prev, [name]: value}`. */
  function InputChange(f: Form, field: Field, value: string): (r: Form)
    ensures Get(r, field) == value
    ensures forall other :: other != field ==> Get(r, other) == Get(f, other)
  {
    match field
    case NameField => f.(name := value)
    case EmailField => f.(email := value)
    case PasswordField => f.(password := value)
    case UniversityField => f.(university := value)
    case YearField => f.(year := value)
  }

  /** `handleSubmit`: the user handed once to `onLogin`. `stamp` is
      `Date.now().toString()`. Sign-in mode falls back to a default name
      and fixes the institution fields; registration copies the form. */
  function Submit(f: Form, isLogin: bool, stamp: string): (u: User)
    ensures u.id == stamp && u.email == f.email && u.assessmentResults.None?
    ensures isLogin ==> && u.name == (if f.name == "" then "Student User" else f.name)
                        && u.university == "Mock University"
                        && u.year == "Undergraduate"
    ensures !isLogin ==> u.name == f.name && u.university == f.university && u.year == f.year
  {
    if isLogin then
      User(stamp, if f.name != "" then f.name else "Student User", f.email,
           "Mock University", "Undergraduate", None)
    else
      User(stamp, f.name, f.email, f.university, f.year, None)
  }

  /** The password never reaches the user: changing it changes nothing. In
      sign-in mode the institution fields are ignored as well. */
  lemma SubmitIgnoresPassword(f: Form, isLogin: bool, stamp: string, p: string, uni: string, yr: string)
    ensures Submit(f.(password := p), isLogin, stamp) == Submit(f, isLogin, stamp)
    ensures isLogin ==> Submit(f.(university := uni, year := yr), isLogin, stamp) == Submit(f, isLogin, stamp)
  {
  }
}
