/** The input guards of registerUser, which run before the password is hashed
    and the user saved. */
module Registration {
  import opened Types

  /** The fields that pass the guards, to be hashed and stored. */
  datatype Registration = Registration(name: string, email: string, password: string)

  const MinPasswordLength: nat := 8

  /** A request field is truthy: present and not the empty string. */
  predicate Present(field: Option<string>)
  {
    field.Some? && field.value != ""
  }

  /** The three guards in their order: presence of every field, then the email
      check (the email validator is a parameter), then the password length. */
  function ValidateRegistration(name: Option<string>, email: Option<string>, password: Option<string>,
                                isEmail: string -> bool): (r: Result<Registration>)
    ensures r.Ok? <==> Present(name) && Present(email) && Present(password)
                       && isEmail(email.value) && |password.value| >= MinPasswordLength
    ensures r.Ok? ==> r.value == Registration(name.value, email.value, password.value)
    ensures !(Present(name) && Present(email) && Present(password)) ==> r == Err(MissingDetails)
    ensures Present(name) && Present(email) && Present(password) && !isEmail(email.value)
            ==> r == Err(InvalidEmail)
    ensures (Present(name) && Present(email) && Present(password) && isEmail(email.value)
             && |password.value| < MinPasswordLength) ==> r == Err(WeakPassword)
  {
    if !Present(name) || !Present(email) || !Present(password) then Err(MissingDetails)
    else if !isEmail(email.value) then Err(InvalidEmail)
    else if |password.value| < MinPasswordLength then Err(WeakPassword)
    else Ok(Registration(name.value, email.value, password.value))
  }

  /** Any password shorter than eight characters is refused, whatever the
      other fields hold. */
  lemma ShortPasswordRefused(name: Option<string>, email: Option<string>, password: Option<string>,
                             isEmail: string -> bool)
    requires password.Some? && |password.value| < MinPasswordLength
    ensures ValidateRegistration(name, email, password, isEmail).Err?
  {
  }
}
