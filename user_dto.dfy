/** Request shapes of the user module: the registration request with its
    validation rules, and the partial update request. */
module UserDto {
  import opened Errors
  import Users

  datatype CreateUserRequest = CreateUserRequest(username: string, email: string, password: string, confirmPassword: string)

  datatype Field = UsernameField | EmailField | PasswordField | ConfirmPasswordField

  /** The validation tags: required, min=n (counted in characters), eqfield. */
  datatype Rule = Required | Min(limit: nat) | EqField(other: Field)

  datatype FieldError = FieldError(field: Field, rule: Rule)

  const MinPasswordLength: nat := 4

  /** The required rule on one field: its error exactly when the field is empty. */
  function RequiredErrors(field: Field, value: string): (errs: seq<FieldError>)
    ensures forall e :: e in errs <==> value == "" && e == FieldError(field, Required)
    ensures |errs| <= 1
  {
    if value == "" then [FieldError(field, Required)] else []
  }

  /** The password's rules, required then min=4: the first that fails. */
  function PasswordErrors(password: string): (errs: seq<FieldError>)
    ensures forall e :: e in errs <==>
      || (password == "" && e == FieldError(PasswordField, Required))
      || (0 < |password| < MinPasswordLength && e == FieldError(PasswordField, Min(MinPasswordLength)))
    ensures |errs| <= 1
  {
    if password == "" then [FieldError(PasswordField, Required)]
    else if |password| < MinPasswordLength then [FieldError(PasswordField, Min(MinPasswordLength))]
    else []
  }

  /** The confirmation's rules, required then eqfield=Password: the first that fails. */
  function ConfirmErrors(confirm: string, password: string): (errs: seq<FieldError>)
    ensures forall e :: e in errs <==>
      || (confirm == "" && e == FieldError(ConfirmPasswordField, Required))
      || (confirm != "" && confirm != password && e == FieldError(ConfirmPasswordField, EqField(PasswordField)))
    ensures |errs| <= 1
  {
    if confirm == "" then [FieldError(ConfirmPasswordField, Required)]
    else if confirm != password then [FieldError(ConfirmPasswordField, EqField(PasswordField))]
    else []
  }

  /** The validator's verdict on a registration request: for each field in
      declaration order, the first of its rules that fails. */
  function ValidateCreateUserRequest(req: CreateUserRequest): (errs: seq<FieldError>)
    ensures errs == [] <==>
      && req.username != ""
      && req.email != ""
      && |req.password| >= MinPasswordLength
      && req.confirmPassword == req.password
    ensures FieldError(UsernameField, Required) in errs <==> req.username == ""
    ensures FieldError(EmailField, Required) in errs <==> req.email == ""
    ensures FieldError(PasswordField, Required) in errs <==> req.password == ""
    ensures FieldError(PasswordField, Min(MinPasswordLength)) in errs <==> 0 < |req.password| < MinPasswordLength
    ensures FieldError(ConfirmPasswordField, EqField(PasswordField)) in errs <==>
      req.confirmPassword != "" && req.confirmPassword != req.password
    ensures FieldError(ConfirmPasswordField, Required) in errs <==> req.confirmPassword == ""
    ensures |errs| <= 4
  {
    var u := RequiredErrors(UsernameField, req.username);
    var m := RequiredErrors(EmailField, req.email);
    var p := PasswordErrors(req.password);
    var c := ConfirmErrors(req.confirmPassword, req.password);
    var all := u + m + p + c;
    assert FieldError(UsernameField, Required) in all <==> FieldError(UsernameField, Required) in u;
    assert FieldError(EmailField, Required) in all <==> FieldError(EmailField, Required) in m;
    assert FieldError(PasswordField, Required) in all <==> FieldError(PasswordField, Required) in p;
    assert FieldError(PasswordField, Min(MinPasswordLength)) in all <==> FieldError(PasswordField, Min(MinPasswordLength)) in p;
    assert FieldError(ConfirmPasswordField, Required) in all <==> FieldError(ConfirmPasswordField, Required) in c;
    assert FieldError(ConfirmPasswordField, EqField(PasswordField)) in all <==> FieldError(ConfirmPasswordField, EqField(PasswordField)) in c;
    assert |all| == |u| + |m| + |p| + |c|;
    all
  }

  predicate IsValidCreateUserRequest(req: CreateUserRequest)
  {
    ValidateCreateUserRequest(req) == []
  }

  /** A two-character password is refused by its min rule and by nothing else. */
  lemma ShortPasswordRejected()
    ensures ValidateCreateUserRequest(CreateUserRequest("alice", "alice@example.com", "ab", "ab"))
         == [FieldError(PasswordField, Min(4))]
  {
  }

  /** A partial update: an absent field is not supplied and stays as it is. */
  datatype UpdateUserRequest = UpdateUserRequest(username: Option<string>, email: Option<string>)

  function ApplyUpdate(u: Users.User, req: UpdateUserRequest): Users.User
  {
    u.(username := if req.username.Some? then req.username.value else u.username,
       email := if req.email.Some? then req.email.value else u.email)
  }

  /** Only supplied fields change; id and password never do. */
  lemma ApplyUpdateChangesOnlySupplied(u: Users.User, req: UpdateUserRequest)
    ensures var v := ApplyUpdate(u, req);
      && v.id == u.id && v.password == u.password
      && (req.username.None? ==> v.username == u.username)
      && (req.username.Some? ==> v.username == req.username.value)
      && (req.email.None? ==> v.email == u.email)
      && (req.email.Some? ==> v.email == req.email.value)
  {
  }

  /** A request that supplies nothing leaves the user as it is, and applying
      a request twice is the same as applying it once. */
  lemma ApplyUpdateLaws(u: Users.User, req: UpdateUserRequest)
    ensures ApplyUpdate(u, UpdateUserRequest(None, None)) == u
    ensures ApplyUpdate(ApplyUpdate(u, req), req) == ApplyUpdate(u, req)
  {
  }
}
