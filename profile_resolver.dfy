/** src/graphql/resolvers/profileResolver.ts: `updateProfile`, run behind the `isAuthenticated`
    guard. The guard only checks that some valid token was presented; the email argument, not the
    token's identity, chooses the record. */
module ProfileResolver {
  import opened Wrappers
  import opened Errors
  import opened Passwords
  import opened Store

  /** `UpdateUserInput` from src/types/types.ts; every field may be null or omitted. */
  datatype UpdateUserInput = UpdateUserInput(
    name: Option<string>, email: Option<string>, password: Option<string>,
    phone: Option<string>, address: Option<string>)

  /** What `updateProfile` does to an existing record. A non-empty password must be the current
      one, and is then hashed again; name, phone and address take every given value, the empty
      string included (`??`). Email, code, expiry and verification never change, though the input
      has an email field. */
  function ProfileStep(u: User, userData: UpdateUserInput, salt: nat): (r: Result<User>)
    ensures r.Err? <==> TruthyString(userData.password) && !Compare(userData.password.value, u.password)
    ensures r.Err? ==> r.code == InvalidPassword
    ensures r.Ok? ==> forall q :: Compare(q, r.value.password) <==> Compare(q, u.password)
    ensures r.Ok? && !TruthyString(userData.password) ==> r.value.password == u.password
    ensures r.Ok? ==> r.value.name == (if userData.name.Some? then userData.name.value else u.name)
    ensures r.Ok? ==> r.value.phone == (if userData.phone.Some? then userData.phone else u.phone)
    ensures r.Ok? ==> r.value.address == (if userData.address.Some? then userData.address else u.address)
    ensures r.Ok? ==>
              r.value.id == u.id && r.value.email == u.email && r.value.isVerified == u.isVerified
              && r.value.otp == u.otp && r.value.otpExpiresAt == u.otpExpiresAt
  {
    if TruthyString(userData.password) && !Compare(userData.password.value, u.password) then
      Err(InvalidPassword)
    else
      var hashedPassword := if TruthyString(userData.password) then Some(Hash(userData.password.value, salt)) else None;
      Ok(u.(name := userData.name.GetOr(u.name),
            phone := if userData.phone.Some? then userData.phone else u.phone,
            address := if userData.address.Some? then userData.address else u.address,
            password := hashedPassword.GetOr(u.password)))
  }

  /** `updateProfile(email, userData)`, with the bcrypt salt of the re-hash. */
  method UpdateProfile(db: Database, email: string, userData: UpdateUserInput, salt: nat) returns (r: Result<User>)
    requires db.Valid()
    modifies db`users
    ensures db.Valid()
    ensures email !in old(db.users) ==> r == Err(UserNotFound) && db.users == old(db.users)
    ensures email in old(db.users) ==>
              var step := ProfileStep(old(db.users)[email], userData, salt);
              r == step && (step.Err? ==> db.users == old(db.users))
              && (step.Ok? ==> db.users == old(db.users)[email := step.value])
  {
    if email !in db.users {
      return Err(UserNotFound);
    }
    var user := db.users[email];
    var hashedPassword: Option<PasswordHash> := None;
    if TruthyString(userData.password) {
      if !Compare(userData.password.value, user.password) {
        return Err(InvalidPassword);
      }
      hashedPassword := Some(Hash(userData.password.value, salt));
    }
    var updatedUser := user.(
      name := userData.name.GetOr(user.name),
      phone := if userData.phone.Some? then userData.phone else user.phone,
      address := if userData.address.Some? then userData.address else user.address,
      password := hashedPassword.GetOr(user.password));
    db.users := db.users[email := updatedUser];
    return Ok(updatedUser);
  }

  /** Null and omitted fields keep the stored values; empty strings overwrite them. */
  lemma EmptyStringsOverwriteProfile(u: User, salt: nat)
    ensures ProfileStep(u, UpdateUserInput(None, None, None, None, None), salt) == Ok(u)
    ensures ProfileStep(u, UpdateUserInput(Some(""), None, Some(""), Some(""), Some("")), salt)
              == Ok(u.(name := "", phone := Some(""), address := Some("")))
  {
  }

  /** Giving a new email changes nothing about the record's email. */
  lemma EmailFieldIsIgnored(u: User, userData: UpdateUserInput, newEmail: string, salt: nat)
    ensures ProfileStep(u, userData.(email := Some(newEmail)), salt) == ProfileStep(u, userData, salt)
  {
  }
}
