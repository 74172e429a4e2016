/** The create-account workflow behind `POST /register`: a short-circuiting validation
    pipeline over the user table, ending in a redirect that carries one flash message. */
module Registration {
  import opened Text
  import opened Users

  /** The `users` table as the repository sees it: rows keyed by their unique email
      column, and the next value of the identity column. */
  datatype Store = Store(rows: map<string, User>, nextId: int)

  /** Each row sits under its own email, and every row has its own identity below the
      next one to be handed out. */
  ghost predicate Valid(st: Store) {
    && (forall e :: e in st.rows ==> st.rows[e].email == e && st.rows[e].userId < st.nextId)
    && (forall e1, e2 :: e1 in st.rows && e2 in st.rows && e1 != e2 ==>
          st.rows[e1].userId != st.rows[e2].userId)
  }

  /** `existsByEmail`: exact string comparison against the unique column. On a well
      formed table, looking the key up is the same as searching the rows' emails. */
  function ExistsByEmail(st: Store, email: string): (r: bool)
    ensures Valid(st) ==> (r <==> exists e :: e in st.rows && st.rows[e].email == email)
  {
    email in st.rows
  }

  /** `save` of a new entity: the database assigns the next identity to the row. */
  function Save(st: Store, u: User): (r: Store)
    requires !ExistsByEmail(st, u.email)
    ensures ExistsByEmail(r, u.email)
    ensures r.rows[u.email] == SetUserId(u, st.nextId)
    ensures forall e :: e in st.rows ==> e in r.rows && r.rows[e] == st.rows[e]
    ensures r.rows.Keys == st.rows.Keys + {u.email}
    ensures r.nextId > st.nextId
  {
    Store(st.rows[u.email := u.(userId := st.nextId)], st.nextId + 1)
  }

  /** A flash attribute: its key ("error" or "success") and its message. */
  datatype Flash = Flash(key: string, message: string)

  /** What the handler returns: the flash for the next page and the view name. */
  datatype Outcome = Outcome(flash: Flash, redirect: string)

  datatype Response = Response(outcome: Outcome, store: Store)

  const SignupView := "redirect:/auth.html#signup"
  const LoginView := "redirect:/auth.html"

  const PasswordMismatch := "Passwords do not match"
  const FieldsRequired := "All fields are required"
  const EmailTaken := "Email already exists"
  const Registered := "Registration successful"

  /** A request that reaches the uniqueness check: the two passwords agree and none of
      name, email and password is blank. */
  predicate WellFormedRequest(name: string, email: string, password: string, confirm: string) {
    password == confirm && !IsBlank(name) && !IsBlank(email) && !IsBlank(password)
  }

  /** `registerUser(name, email, password, confirmpassword)`. The checks run in order
      and the first that fails decides the outcome; only a request that passes all of
      them writes to the store, and it writes exactly one row. */
  function RegisterUser(st: Store, name: string, email: string, password: string, confirm: string): (r: Response)
    // exactly one flash, and it is an error or a success
    ensures r.outcome.flash.key == "error" || r.outcome.flash.key == "success"
    // success exactly for a well-formed request with an unused email
    ensures r.outcome.flash.key == "success" <==>
              WellFormedRequest(name, email, password, confirm) && !ExistsByEmail(st, email)
    // which error is reported
    ensures r.outcome.flash.message == PasswordMismatch <==> password != confirm
    ensures r.outcome.flash.message == FieldsRequired <==>
              password == confirm && (IsBlank(name) || IsBlank(email) || IsBlank(password))
    ensures r.outcome.flash.message == EmailTaken <==>
              WellFormedRequest(name, email, password, confirm) && ExistsByEmail(st, email)
    // rejections change nothing and send the visitor back to the sign-up form
    ensures r.outcome.flash.key == "error" ==> r.store == st && r.outcome.redirect == SignupView
    // success adds the one new account, drops confirmpassword, and goes to the login view
    ensures r.outcome.flash.key == "success" ==>
              && r.outcome == Outcome(Flash("success", Registered), LoginView)
              && r.store.rows == st.rows[email := User(st.nextId, name, email, password)]
              && ExistsByEmail(r.store, email)
  {
    if password != confirm then
      Response(Outcome(Flash("error", PasswordMismatch), SignupView), st)
    else if IsBlank(name) || IsBlank(email) || IsBlank(password) then
      Response(Outcome(Flash("error", FieldsRequired), SignupView), st)
    else if ExistsByEmail(st, email) then
      Response(Outcome(Flash("error", EmailTaken), SignupView), st)
    else
      Response(Outcome(Flash("success", Registered), LoginView), Save(st, NewUser(name, email, password)))
  }

  /** Registration keeps the table well formed: emails stay unique keys and identities
      stay distinct. */
  lemma RegisterPreservesValid(st: Store, name: string, email: string, password: string, confirm: string)
    requires Valid(st)
    ensures Valid(RegisterUser(st, name, email, password, confirm).store)
  {
    var r := RegisterUser(st, name, email, password, confirm);
    if r.outcome.flash.key == "success" {
      var s2 := r.store;
      forall e1, e2 | e1 in s2.rows && e2 in s2.rows && e1 != e2
        ensures s2.rows[e1].userId != s2.rows[e2].userId
      {
        if e1 != email && e2 != email {
          assert s2.rows[e1] == st.rows[e1] && s2.rows[e2] == st.rows[e2];
        }
      }
    }
  }

  /** The table grows by exactly one row on success and not at all otherwise. */
  lemma {:induction false} RegisterGrowsByAtMostOne(st: Store, name: string, email: string, password: string, confirm: string)
    ensures var r := RegisterUser(st, name, email, password, confirm);
            |r.store.rows| == |st.rows| + (if r.outcome.flash.key == "success" then 1 else 0)
  {
    var r := RegisterUser(st, name, email, password, confirm);
    if r.outcome.flash.key == "success" {
      assert email !in st.rows;
      assert r.store.rows.Keys == st.rows.Keys + {email};
      assert |st.rows.Keys + {email}| == |st.rows.Keys| + 1;
    }
  }

  /** Mismatched passwords are reported as such whatever else is wrong with the form:
      a blank name or email never hides the mismatch, and the table does not change. */
  lemma MismatchReportedBeforeBlankFields(st: Store, name: string, email: string, password: string, confirm: string)
    requires password != confirm
    ensures var r := RegisterUser(st, name, email, password, confirm);
            r.outcome == Outcome(Flash("error", PasswordMismatch), SignupView) && r.store == st
  {
  }

  /** Sending the same successful request twice: the second time the email is taken and
      the table does not change. */
  lemma RepeatedRegistrationIsRejected(st: Store, name: string, email: string, password: string, confirm: string)
    requires RegisterUser(st, name, email, password, confirm).outcome.flash.key == "success"
    ensures var st2 := RegisterUser(st, name, email, password, confirm).store;
            var again := RegisterUser(st2, name, email, password, confirm);
            again.outcome == Outcome(Flash("error", EmailTaken), SignupView) && again.store == st2
  {
  }

  /** Once an email is registered, every later well-formed request for it is refused as
      taken, whatever name and password it carries, and the table does not change. */
  lemma TakenEmailRejectedForAnyCredentials(st: Store, email: string, n1: string, p1: string, c1: string, n2: string, p2: string)
    requires RegisterUser(st, n1, email, p1, c1).outcome.flash.key == "success"
    requires WellFormedRequest(n2, email, p2, p2)
    ensures var st2 := RegisterUser(st, n1, email, p1, c1).store;
            var r := RegisterUser(st2, n2, email, p2, p2);
            r.outcome == Outcome(Flash("error", EmailTaken), SignupView) && r.store == st2
  {
  }

  /** Ann registers on an empty table and gets the only row, identity 1; a second,
      identical request is refused as taken and adds no row. */
  lemma AnnRegistersOnce()
    ensures var st1 := RegisterUser(Store(map[], 1), "Ann", "ann@example.com", "p1", "p1");
            && st1.outcome.flash == Flash("success", Registered)
            && st1.store.rows == map["ann@example.com" := User(1, "Ann", "ann@example.com", "p1")]
            && RegisterUser(st1.store, "Ann", "ann@example.com", "p1", "p1").outcome.flash == Flash("error", EmailTaken)
            && |RegisterUser(st1.store, "Ann", "ann@example.com", "p1", "p1").store.rows| == 1
  {
    assert !IsBlank("Ann") by { assert "Ann"[0] == 'A'; }
    assert !IsBlank("ann@example.com") by { assert "ann@example.com"[0] == 'a'; }
    assert !IsBlank("p1") by { assert "p1"[0] == 'p'; }
  }

  /** The controller does not check the declared column lengths: a 51-character name
      passes every check the controller makes. */
  lemma OverlongNamePassesController(st: Store, email: string, password: string)
    requires !ExistsByEmail(st, email) && !IsBlank(email) && !IsBlank(password)
    ensures var name := seq(ColumnLength + 1, _ => 'a');
            RegisterUser(st, name, email, password, password).outcome.flash.key == "success"
            && !FitsColumns(RegisterUser(st, name, email, password, password).store.rows[email])
  {
    var name := seq(ColumnLength + 1, _ => 'a');
    assert name[0] == 'a';
  }
}
