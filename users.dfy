/**
 * The user record of the struct lessons (user/user.go, and the `user` type
 * the structs.go programs define for themselves): a validating constructor,
 * an admin constructor with fixed names, the detail line, and ClearUserName,
 * which empties both names through a pointer receiver.
 */
module Users {
  import opened Common

  const RequiredMsg: string := "First name, last name and birthdate are required."

  /** The four fields of a user, read together. */
  datatype Profile = Profile(firstName: string, lastName: string, birthDate: string, createdAt: Instant)

  /** What ClearUserName leaves: both names emptied, birth date and creation time kept. */
  function ClearedName(p: Profile): Profile {
    Profile("", "", p.birthDate, p.createdAt)
  }

  /** Clearing twice leaves what clearing once leaves. */
  lemma ClearedNameIdempotent(p: Profile)
    ensures ClearedName(ClearedName(p)) == ClearedName(p)
  {
  }

  /** The line OutputUserDetails prints: fmt.Println puts one space between its operands. */
  function Details(p: Profile): (r: string)
    ensures |r| == |p.firstName| + |p.lastName| + |p.birthDate| + 3
    ensures r[..|p.firstName|] == p.firstName && Last(r) == '\n'
  {
    p.firstName + " " + p.lastName + " " + p.birthDate + "\n"
  }

  /** After clearing, the detail line is two spaces and the birth date. */
  lemma DetailsAfterClear(p: Profile)
    ensures Details(ClearedName(p)) == "  " + p.birthDate + "\n"
  {
  }

  /** The detail line always shows the birth date verbatim just before the line end. */
  lemma DetailsEndWithBirthDate(p: Profile)
    ensures var d := Details(p); d[|d| - 1 - |p.birthDate|..|d| - 1] == p.birthDate
  {
    var d := Details(p);
    var head := p.firstName + " " + p.lastName + " ";
    assert d == head + p.birthDate + "\n";
    assert d[|head|..|d| - 1] == p.birthDate;
  }

  class User {
    var firstName: string
    var lastName: string
    var birthDate: string
    var createdAt: Instant

    /** The record as a value. */
    function Fields(): Profile
      reads this
    {
      Profile(firstName, lastName, birthDate, createdAt)
    }

    /**
     * The unvalidated newUser of 07-using-creation-constructor-functions, and
     * the struct literal of 06-mutation-methods: every field as given.
     */
    constructor (first: string, last: string, birth: string, now: Instant)
      ensures Fields() == Profile(first, last, birth, now)
    {
      firstName := first;
      lastName := last;
      birthDate := birth;
      createdAt := now;
    }

    /** OutputUserDetails: the printed line. */
    method OutputUserDetails() returns (line: string)
      ensures line == Details(Fields())
    {
      line := firstName + " " + lastName + " " + birthDate + "\n";
    }

    /** ClearUserName: only the two name fields of this very record change. */
    method ClearUserName()
      modifies this
      ensures Fields() == ClearedName(old(Fields()))
    {
      firstName := "";
      lastName := "";
    }
  }

  /** New (newUser in 08): any empty field is refused with the "required" error, otherwise the fields are stored verbatim. */
  method New(first: string, last: string, birth: string, now: Instant) returns (u: User?, err: Option<string>)
    ensures u == null <==> first == "" || last == "" || birth == ""
    ensures u == null ==> err == Some(RequiredMsg)
    ensures u != null ==> fresh(u) && err == None && u.Fields() == Profile(first, last, birth, now)
  {
    if first == "" || last == "" || birth == "" {
      return null, Some(RequiredMsg);
    }
    u := new User(first, last, birth, now);
    err := None;
  }

  class Admin {
    var email: string
    var password: string
    /** The embedded User. */
    const user: User

    /** NewAdmin: never fails; email and password are kept verbatim, even when empty. */
    constructor NewAdmin(email: string, password: string, now: Instant)
      ensures this.email == email && this.password == password
      ensures fresh(user) && user.Fields() == Profile("ADMIN", "ADMIN", "---", now)
    {
      this.email := email;
      this.password := password;
      user := new User("ADMIN", "ADMIN", "---", now);
    }

    /** ClearUserName called on an Admin is the embedded User's: email and password stay. */
    method ClearUserName()
      modifies user
      ensures user.Fields() == ClearedName(old(user.Fields()))
      ensures email == old(email) && password == old(password)
    {
      user.ClearUserName();
    }
  }

  const FirstNamePrompt: string := "Please enter your first name: "
  const LastNamePrompt: string := "Please enter your last name: "
  const BirthDatePrompt: string := "Please enter your birthdate (MM/DD/YYYY): "
  const UserPrompts: string := FirstNamePrompt + LastNamePrompt + BirthDatePrompt

  /**
   * main of 06-mutation-methods and 07-using-creation-constructor-functions,
   * given the three scanned values: show the details, clear the name, show
   * them again. The clearing is seen through the caller's variable, so the
   * second line shows only the birth date.
   */
  method ShowClearShow(first: string, last: string, birth: string, now: Instant) returns (out: string)
    ensures out == UserPrompts + Details(Profile(first, last, birth, now)) + "  " + birth + "\n"
  {
    var appUser := new User(first, last, birth, now);
    var before := appUser.OutputUserDetails();
    appUser.ClearUserName();
    var after := appUser.OutputUserDetails();
    out := UserPrompts + before + after;
  }

  /** main of 08-constructor-functions-for-validation: a refused user prints the error and nothing else happens. */
  method ValidatedShowClearShow(first: string, last: string, birth: string, now: Instant) returns (out: string)
    ensures first == "" || last == "" || birth == "" ==> out == UserPrompts + RequiredMsg + "\n"
    ensures first != "" && last != "" && birth != "" ==>
              out == UserPrompts + Details(Profile(first, last, birth, now)) + "  " + birth + "\n"
  {
    var appUser, err := New(first, last, birth, now);
    if err.Some? {
      return UserPrompts + err.value + "\n";
    }
    var before := appUser.OutputUserDetails();
    appUser.ClearUserName();
    var after := appUser.OutputUserDetails();
    out := UserPrompts + before + after;
  }
}
