/**
 * The sign-in / sign-up form. There is no real authentication: submitting the form
 * starts a loading phase, and when it resolves a user record is derived from the
 * entered email and stage name and handed to the login callback.
 */
module AuthView {
  import opened Types

  /** Which tab of the form is active. */
  datatype Mode = Login | Signup

  /** `pat` occurs in `s` starting at position `i`. */
  predicate OccursAt(s: string, pat: string, i: nat)
  {
    i + |pat| <= |s| && s[i..i + |pat|] == pat
  }

  /** `s.includes(pat)`: a case-sensitive substring test. */
  function Includes(s: string, pat: string): (b: bool)
    ensures b ==> |pat| <= |s|
    ensures b ==> exists i: nat :: OccursAt(s, pat, i)
    ensures OccursAt(s, pat, 0) ==> b
    decreases |s|
  {
    if |s| < |pat| then false
    else if s[..|pat|] == pat then (assert OccursAt(s, pat, 0); true)
    else
      var rest := Includes(s[1..], pat);
      (if rest then ShiftOccurrence(s, pat); rest else rest)
  }

  /** An occurrence in the tail of `s` is an occurrence in `s`, one position later. */
  lemma ShiftOccurrence(s: string, pat: string)
    requires |s| >= 1 && exists i: nat :: OccursAt(s[1..], pat, i)
    ensures exists i: nat :: OccursAt(s, pat, i)
  {
    var i: nat :| OccursAt(s[1..], pat, i);
    assert s[1..][i..i + |pat|] == s[i + 1..i + 1 + |pat|];
    assert OccursAt(s, pat, i + 1);
  }

  lemma {:induction false} IncludesIffOccurs(s: string, pat: string)
    ensures Includes(s, pat) <==> exists i: nat :: OccursAt(s, pat, i)
    decreases |s|
  {
    if |s| >= |pat| {
      if s[..|pat|] == pat {
        assert OccursAt(s, pat, 0);
      } else {
        IncludesIffOccurs(s[1..], pat);
        if Includes(s[1..], pat) {
          var i: nat :| OccursAt(s[1..], pat, i);
          assert s[1..][i..i + |pat|] == s[i + 1..i + 1 + |pat|];
          assert OccursAt(s, pat, i + 1);
        } else {
          forall i: nat | OccursAt(s, pat, i) ensures false {
            if i > 0 {
              assert s[1..][i - 1..i - 1 + |pat|] == s[i..i + |pat|];
              assert OccursAt(s[1..], pat, i - 1);
            }
          }
        }
      }
    }
  }

  const AdminMarker := "admin"

  /** The mock login: the role is Admin exactly when the email contains "admin"
      (case-sensitive); an empty stage name falls back to default names. `id` stands
      for the random identifier the source draws. */
  function MockUser(id: string, email: string, stageName: string): (u: User)
    ensures u.id == id && u.email == email
    ensures u.role == Admin <==> exists i: nat :: OccursAt(email, AdminMarker, i)
    ensures u.role == Artist <==> !exists i: nat :: OccursAt(email, AdminMarker, i)
    ensures u.name == if stageName != "" then stageName else "New Artist"
    ensures stageName != "" ==> u.stageName == stageName
    ensures stageName == "" ==> u.stageName == if u.role == Admin then "Admin Console" else "Rising Star"
  {
    IncludesIffOccurs(email, AdminMarker);
    var isManager := Includes(email, AdminMarker);
    User(
      id,
      if stageName != "" then stageName else "New Artist",
      email,
      if stageName != "" then stageName else if isManager then "Admin Console" else "Rising Star",
      if isManager then Admin else Artist)
  }

  /** The form's state. `pending` holds the email and stage name captured when the
      loading timer was scheduled; `loggedIn` lists every user handed to the login
      callback, in order. */
  class AuthForm {
    var mode: Mode
    var email: string
    var password: string
    var stageName: string
    var isLoading: bool
    var pending: Option<(string, string)>
    var loggedIn: seq<User>

    ghost predicate Valid()
      reads this
    {
      isLoading <==> pending.Some?
    }

    /** The mounted form: the sign-in tab, empty inputs, not loading. */
    constructor ()
      ensures Valid()
      ensures mode == Login && email == "" && password == "" && stageName == ""
      ensures !isLoading && loggedIn == []
    {
      mode := Login;
      email, password, stageName := "", "", "";
      isLoading := false;
      pending := None;
      loggedIn := [];
    }

    /** The two tab buttons: Sign In selects Login, Join Station selects Signup. */
    method SetMode(m: Mode)
      requires Valid()
      modifies this`mode
      ensures Valid() && mode == m
    {
      mode := m;
    }

    method SetEmail(v: string)
      requires Valid()
      modifies this`email
      ensures Valid() && email == v
    {
      email := v;
    }

    method SetPassword(v: string)
      requires Valid()
      modifies this`password
      ensures Valid() && password == v
    {
      password := v;
    }

    /** The stage-name input exists only on the sign-up tab. */
    method SetStageName(v: string)
      requires Valid() && mode == Signup
      modifies this`stageName
      ensures Valid() && stageName == v
    {
      stageName := v;
    }

    /** Submitting the form. The button is disabled while loading, and the browser
        submits only when every required input on screen is filled in. */
    method HandleSubmit()
      requires Valid() && !isLoading
      requires email != "" && password != ""
      requires mode == Signup ==> stageName != ""
      modifies this`isLoading, this`pending
      ensures Valid() && isLoading
      ensures pending == Some((email, stageName))
    {
      isLoading := true;
      pending := Some((email, stageName));
    }

    /** The loading timer fires: the login callback gets the user derived from the
        captured inputs, once, and loading ends. `id` is the random identifier. */
    method Resolve(id: string) returns (u: User)
      requires Valid() && isLoading
      modifies this`isLoading, this`pending, this`loggedIn
      ensures Valid() && !isLoading
      ensures u == MockUser(id, old(pending).value.0, old(pending).value.1)
      ensures loggedIn == old(loggedIn) + [u]
    {
      u := MockUser(id, pending.value.0, pending.value.1);
      loggedIn := loggedIn + [u];
      isLoading := false;
      pending := None;
    }
  }
}
