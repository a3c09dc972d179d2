/** The `User` struct of the structs chapter: construction with field-init
    shorthand, assignment to fields of a mutable binding, and struct-update
    syntax. */
module Define {
  import opened RustStd

  datatype User = User(username: string, email: string, signInCount: u64, active: bool)

  /** `generate_user`: the two strings given, one sign-in, active. */
  function GenerateUser(username: string, email: string): (u: User)
    ensures u.username == username && u.email == email
    ensures u.signInCount == 1 && u.active
  {
    User(username, email, 1, true)
  }

  /** `User { username, ..base }`: the new name, every other field from `base`. */
  function WithUsername(base: User, username: string): (u: User)
    ensures u.username == username
    ensures u.email == base.email && u.signInCount == base.signInCount && u.active == base.active
  {
    base.(username := username)
  }

  /** Updating a field and then putting the old value back gives the
      original user. */
  lemma WithUsernameRestores(base: User, username: string)
    ensures WithUsername(WithUsername(base, username), base.username) == base
  {
  }

  /** `demo_2`: assigns a new username, then a new email, to the mutable
      `user`; the sign-in count and the active flag are untouched. */
  method ReassignFields() returns (before: User, after: User)
    ensures before == User("someusername123", "someusername123@example.com", 1, true)
    ensures after == User("someusername456", "someusername456@example.com", 1, true)
  {
    var user := GenerateUser("someusername123", "someusername123@example.com");
    before := user;
    user := user.(username := "someusername456");
    user := user.(email := "someusername456@example.com");
    after := user;
  }

  /** `demo_3`: `user2` takes the new username and the rest of `user1`. */
  lemma StructUpdateDemo()
    ensures var user1 := GenerateUser("someusername123", "someusername123@example.com");
            WithUsername(user1, "someusername456") == User("someusername456", "someusername123@example.com", 1, true)
  {
  }
}
