/** The `users` entity: one registered account as the backend persists it. */
module Users {

  /** Every string column of the `users` table is declared with this length. */
  const ColumnLength := 50

  /** A row of `users`. The identity column is assigned by the database; name and
      password are not null; the email is not null and unique across rows. Dafny strings
      cannot be null, so the not-null constraints hold by construction. */
  datatype User = User(userId: int, name: string, email: string, password: string)

  /** The declared column lengths, which the database enforces on insert. */
  predicate FitsColumns(u: User) {
    |u.name| <= ColumnLength && |u.email| <= ColumnLength && |u.password| <= ColumnLength
  }

  /** `new User(name, email, password)`: the three strings are kept as given and the id
      keeps Java's default of 0 until the database assigns one. */
  function NewUser(name: string, email: string, password: string): (u: User)
    ensures u.name == name && u.email == email && u.password == password
    ensures u.userId == 0
  {
    User(0, name, email, password)
  }

  /** `setUserID`: only the id changes. */
  function SetUserId(u: User, id: int): (r: User)
    ensures r.userId == id
    ensures r.name == u.name && r.email == u.email && r.password == u.password
  {
    u.(userId := id)
  }

  /** `setName`: only the name changes. */
  function SetName(u: User, name: string): (r: User)
    ensures r.name == name
    ensures r.userId == u.userId && r.email == u.email && r.password == u.password
  {
    u.(name := name)
  }

  /** `setPassword`: only the password changes. */
  function SetPassword(u: User, password: string): (r: User)
    ensures r.password == password
    ensures r.userId == u.userId && r.name == u.name && r.email == u.email
  {
    u.(password := password)
  }

  /** `setEmail` as the entity writes it: the assignment targets the parameter, which
      shadows the field, so the user is returned unchanged. */
  function SetEmailAsWritten(u: User, email: string): (r: User)
    ensures r.email == u.email
    ensures r.userId == u.userId && r.name == u.name && r.password == u.password
  {
    u
  }

  /** The setter as its name promises: only the email changes. */
  function SetEmail(u: User, email: string): (r: User)
    ensures r.email == email
    ensures r.userId == u.userId && r.name == u.name && r.password == u.password
  {
    u.(email := email)
  }

  /** The written setter loses the new address whenever it differs from the old one:
      the getter still returns the old address. */
  lemma SetEmailAsWrittenLosesUpdate(u: User, e: string)
    requires e != u.email
    ensures SetEmailAsWritten(u, e).email != e
    ensures SetEmailAsWritten(u, e).email == u.email
  {
  }

  /** The intended setter followed by the getter reads back what was set, for every
      user and every address, and setting the same address twice is setting it once. */
  lemma SetEmailReadsBack(u: User, e: string, e2: string)
    ensures SetEmail(u, e).email == e
    ensures SetEmail(SetEmail(u, e), e2) == SetEmail(u, e2)
  {
  }

  /** The constructor followed by the getters reads back its arguments, and the other
      setters read back what they set without touching the email. */
  lemma AccessorsReadBack(name: string, email: string, password: string, n2: string, p2: string, id: int)
    ensures var u := NewUser(name, email, password);
            u.name == name && u.email == email && u.password == password
    ensures var u := SetUserId(SetPassword(SetName(NewUser(name, email, password), n2), p2), id);
            u.name == n2 && u.password == p2 && u.userId == id && u.email == email
  {
  }
}
