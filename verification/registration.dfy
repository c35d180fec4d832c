/** The example consumer of the algebra: five field validators and the
    curried-constructor pipeline that builds a registered user from an
    unregistered one, collecting every failure reason on the way. */
module Registration {
  import opened Semigroup
  import opened Results
  import opened Text
  import opened ResultLaws

  /** Failure reasons: an ordered list of human-readable messages. */
  type Reasons = seq<string>

  datatype UnregisteredUser = UnregisteredUser(id: int, email: string, age: int)

  datatype RegisteredUser = RegisteredUser(id: int, email: string, age: int)

  /** A positive identifier passes through; anything else is refused. */
  function ValidId(id: int): (r: Result<int, Reasons>)
    ensures r.Success? <==> id > 0
    ensures r.Success? ==> r.value == id
    ensures r.Failure? ==> r.error == ["invalid id"]
  {
    if id > 0 then Success(id) else Failure(["invalid id"])
  }

  /** An address with an `@` somewhere in it passes through. */
  function ValidEmail(email: string): (r: Result<string, Reasons>)
    ensures r.Success? <==> exists i :: 0 <= i < |email| && email[i] == '@'
    ensures r.Success? ==> r.value == email
    ensures r.Failure? ==> r.error == ["invalid email"]
  {
    if ContainsChar(email, '@') then Success(email) else Failure(["invalid email"])
  }

  /** An address containing `gmail` anywhere passes through. */
  function ValidGmailEmail(email: string): (r: Result<string, Reasons>)
    ensures r.Success? <==> exists i :: OccursAt(email, "gmail", i)
    ensures r.Success? ==> r.value == email
    ensures r.Failure? ==> r.error == ["invalid gmail address"]
  {
    if RangeOf(email, "gmail") != None then Success(email) else Failure(["invalid gmail address"])
  }

  /** Ages 18 to 34 inclusive pass through. */
  function ValidMillennial(age: int): (r: Result<int, Reasons>)
    ensures r.Success? <==> 18 <= age <= 34
    ensures r.Success? ==> r.value == age
    ensures r.Failure? ==> r.error == ["invalid millennial"]
  {
    if age >= 18 && age <= 34 then Success(age) else Failure(["invalid millennial"])
  }

  /** Ages 35 to 50 inclusive pass through. */
  function ValidGenX(age: int): (r: Result<int, Reasons>)
    ensures r.Success? <==> 35 <= age <= 50
    ensures r.Success? ==> r.value == age
    ensures r.Failure? ==> r.error == ["invalid gen x"]
  {
    if age >= 35 && age <= 50 then Success(age) else Failure(["invalid gen x"])
  }

  /** The constructor in curried form: one field at a time. */
  function CurriedUser(): int -> string -> int -> RegisteredUser {
    (id: int) => (email: string) => (age: int) => RegisteredUser(id, email, age)
  }

  /** `success(ctor) <*> validId <*> (validEmail && validGmailEmail)
      <*> (validMillennial || validGenX)`, grouped to the left. */
  function Create(user: UnregisteredUser): (r: Result<RegisteredUser, Reasons>)
    ensures r.Success? ==> r.value == RegisteredUser(user.id, user.email, user.age)
  {
    var withId := Ap(Success(CurriedUser()), ValidId(user.id), Concat);
    var withEmail := Ap(withId, And(ValidEmail(user.email), ValidGmailEmail(user.email)), Concat);
    Ap(withEmail, Or(ValidMillennial(user.age), ValidGenX(user.age), Concat), Concat)
  }

  // ----- Reference definition of the reasons each field contributes -----

  ghost function IdReasons(id: int): Reasons {
    if id > 0 then [] else ["invalid id"]
  }

  ghost function EmailReasons(email: string): Reasons {
    if '@' !in email then ["invalid email"]
    else if !(exists i :: OccursAt(email, "gmail", i)) then ["invalid gmail address"]
    else []
  }

  ghost function AgeReasons(age: int): Reasons {
    if 18 <= age <= 50 then [] else ["invalid millennial", "invalid gen x"]
  }

  /** The email check fails with the first reason of the two checks: a
      missing `@` hides a missing `gmail`. */
  lemma EmailCheck(email: string)
    ensures And(ValidEmail(email), ValidGmailEmail(email)).Success? <==> EmailReasons(email) == []
    ensures Errors(And(ValidEmail(email), ValidGmailEmail(email))) == EmailReasons(email)
  {
  }

  /** The age check succeeds exactly for ages 18 to 50 and otherwise
      reports both generation reasons, millennial first. */
  lemma AgeCheck(age: int)
    ensures Or(ValidMillennial(age), ValidGenX(age), Concat).Success? <==> 18 <= age <= 50
    ensures Or(ValidMillennial(age), ValidGenX(age), Concat).Success? ==>
              Or(ValidMillennial(age), ValidGenX(age), Concat).value == age
    ensures Or(ValidMillennial(age), ValidGenX(age), Concat).Failure? ==>
              Or(ValidMillennial(age), ValidGenX(age), Concat).error == ["invalid millennial", "invalid gen x"]
  {
  }

  /** Registration collects every field's reasons, in field order, rather
      than stopping at the first failing field; it succeeds with the
      user's own fields exactly when no field has a reason. */
  lemma CreateCollectsAllReasons(user: UnregisteredUser)
    ensures var reasons := IdReasons(user.id) + EmailReasons(user.email) + AgeReasons(user.age);
            Create(user) == if reasons == [] then Success(RegisteredUser(user.id, user.email, user.age))
                            else Failure(reasons)
  {
    var byId := ValidId(user.id);
    var byEmail := And(ValidEmail(user.email), ValidGmailEmail(user.email));
    var byAge := Or(ValidMillennial(user.age), ValidGenX(user.age), Concat);
    EmailCheck(user.email);
    AgeCheck(user.age);
    assert Errors(byId) == IdReasons(user.id);
    var withId := Ap(Success(CurriedUser()), byId, Concat);
    ApCollectsErrors(Success(CurriedUser()), byId);
    var withEmail := Ap(withId, byEmail, Concat);
    ApCollectsErrors(withId, byEmail);
    ApCollectsErrors(withEmail, byAge);
    assert Errors(Create(user)) == IdReasons(user.id) + EmailReasons(user.email) + AgeReasons(user.age);
  }

  /** The reasons each field of the library's example contributes. */
  lemma ExampleFieldReasons(user: UnregisteredUser)
    requires user == UnregisteredUser(0, "test@test.com", 7)
    ensures IdReasons(user.id) == ["invalid id"]
    ensures EmailReasons(user.email) == ["invalid gmail address"]
    ensures AgeReasons(user.age) == ["invalid millennial", "invalid gen x"]
  {
    assert user.email[4] == '@';
    assert 'g' !in user.email;
    AbsentFirstCharacter(user.email, "gmail");
  }

  /** The library's example: id 0, email "test@test.com", age 7. The
      address has an `@` but no `gmail`, so the email reason is the gmail
      one, and the age fails both generation ranges. */
  lemma CreateExample(user: UnregisteredUser)
    requires user == UnregisteredUser(0, "test@test.com", 7)
    ensures Create(user) == Failure(["invalid id", "invalid gmail address", "invalid millennial", "invalid gen x"])
  {
    ExampleFieldReasons(user);
    ExampleReasons(user);
  }

  /** A user whose fields carry exactly the example's reasons fails
      registration with those reasons, in field order. */
  lemma ExampleReasons(user: UnregisteredUser)
    requires IdReasons(user.id) == ["invalid id"]
    requires EmailReasons(user.email) == ["invalid gmail address"]
    requires AgeReasons(user.age) == ["invalid millennial", "invalid gen x"]
    ensures Create(user) == Failure(["invalid id", "invalid gmail address", "invalid millennial", "invalid gen x"])
  {
    CreateCollectsAllReasons(user);
    var reasons := IdReasons(user.id) + EmailReasons(user.email) + AgeReasons(user.age);
    assert reasons == ["invalid id", "invalid gmail address", "invalid millennial", "invalid gen x"];
  }
}
