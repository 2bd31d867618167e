/** The mock account service of services/storage.ts on an account snapshot:
    exact string comparison, no hashing. */
module Accounts {
  import opened Types

  /** A stored account, `{email, name, password}` as `signup` writes it. */
  datatype Account = Account(email: string, name: string, password: string)

  /** Index of the first account matching both `email` and `password`. */
  function FindAccount(users: seq<Account>, email: string, password: string): (r: Option<nat>)
    ensures r.Some? ==> r.value < |users| && users[r.value].email == email && users[r.value].password == password
    ensures r.Some? ==> forall j :: 0 <= j < r.value ==> !(users[j].email == email && users[j].password == password)
    ensures r.None? <==> forall j :: 0 <= j < |users| ==> !(users[j].email == email && users[j].password == password)
  {
    if users == [] then None
    else if users[0].email == email && users[0].password == password then Some(0)
    else match FindAccount(users[1..], email, password)
      case None => None
      case Some(k) => Some(k + 1)
  }

  /** `users.some(u => u.email === email)`. */
  predicate EmailTaken(users: seq<Account>, email: string): (taken: bool)
    ensures taken <==> exists a :: a in users && a.email == email
    ensures taken ==> users != []
  {
    exists i :: 0 <= i < |users| && users[i].email == email
  }

  predicate EmailsUnique(users: seq<Account>) {
    forall i, j :: 0 <= i < j < |users| ==> users[i].email != users[j].email
  }

  /** `login`: the name and email of the first account matching both fields,
      or the "Invalid email or password" error. */
  function Login(users: seq<Account>, email: string, password: string): (r: Result<User>)
    ensures r.Ok? <==> exists i :: 0 <= i < |users| && users[i].email == email && users[i].password == password
    ensures r.Ok? ==> r.value.email == email && Account(email, r.value.name, password) in users
    ensures r.Err? ==> r.error == InvalidCredentials
    ensures forall i :: 0 <= i < |users| && users[i].email == email && users[i].password == password
                        && (forall j :: 0 <= j < i ==> !(users[j].email == email && users[j].password == password))
                        ==> r == Ok(User(users[i].name, email))
  {
    match FindAccount(users, email, password)
    case None => Err(InvalidCredentials)
    case Some(i) => Ok(User(users[i].name, users[i].email))
  }

  /** `signup`: the account list with the new account appended and the new
      user, or the "User already exists" error when the email is in use. */
  function Signup(users: seq<Account>, email: string, name: string, password: string): (r: Result<(seq<Account>, User)>)
    ensures r.Err? <==> EmailTaken(users, email)
    ensures r.Err? ==> r.error == UserAlreadyExists
    ensures r.Ok? ==> |r.value.0| == |users| + 1 && r.value.0[..|users|] == users
    ensures r.Ok? ==> r.value.0[|users|] == Account(email, name, password) && r.value.1 == User(name, email)
  {
    if EmailTaken(users, email) then Err(UserAlreadyExists)
    else Ok((users + [Account(email, name, password)], User(name, email)))
  }

  /** Logging in with the credentials just signed up with succeeds and yields the new user. */
  lemma LoginAfterSignup(users: seq<Account>, email: string, name: string, password: string)
    requires Signup(users, email, name, password).Ok?
    ensures Login(Signup(users, email, name, password).value.0, email, password) == Ok(User(name, email))
  {
  }

  /** Signup keeps emails unique. */
  lemma SignupKeepsEmailsUnique(users: seq<Account>, email: string, name: string, password: string)
    requires EmailsUnique(users) && Signup(users, email, name, password).Ok?
    ensures EmailsUnique(Signup(users, email, name, password).value.0)
  {
  }

  /** With unique emails, the right email with a wrong password is rejected. */
  lemma WrongPasswordFails(users: seq<Account>, i: nat, password: string)
    requires EmailsUnique(users) && i < |users| && users[i].password != password
    ensures Login(users, users[i].email, password) == Err(InvalidCredentials)
  {
  }
}
