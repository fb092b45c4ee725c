/**
 * The `/users` aggregation: every commit's author, de-duplicated by e-mail
 * address through a `Map` keyed by e-mail.
 */
module Contributors {
  import opened Sequences
  import opened OrderedMaps

  /** The two fields of a commit listing entry that the service reads: `commit.author.name` and `commit.author.email`. */
  datatype CommitRecord = CommitRecord(authorName: string, authorEmail: string)

  datatype User = User(name: string, email: string)

  /** Each commit's author as a user, in listing order. */
  function ToUsers(data: seq<CommitRecord>): (users: seq<User>)
    ensures |users| == |data|
    ensures forall i :: 0 <= i < |data| ==>
      users[i].name == data[i].authorName && users[i].email == data[i].authorEmail
  {
    seq(|data|, i requires 0 <= i < |data| => User(data[i].authorName, data[i].authorEmail))
  }

  function Emails(users: seq<User>): (emails: seq<string>)
    ensures |emails| == |users|
    ensures forall i :: 0 <= i < |users| ==> emails[i] == users[i].email
  {
    seq(|users|, i requires 0 <= i < |users| => users[i].email)
  }

  /** The map keyed by e-mail address, built with one `set` per user in list order. */
  function ByEmail(users: seq<User>): (m: OrderedMap<string, User>)
    ensures m.Valid()
  {
    if users == [] then Empty()
    else
      var n := |users| - 1;
      ByEmail(users[..n]).Set(users[n].email, users[n])
  }

  /** The values of the e-mail map, spread into an array. */
  function UniqueUsers(users: seq<User>): seq<User>
  {
    ByEmail(users).Values()
  }

  /**
   * The map holds the distinct e-mail addresses in order of first
   * occurrence, and under each address the last user listed with it.
   */
  lemma {:induction false} ByEmailSpec(users: seq<User>)
    ensures FirstOccurrenceOrder(ByEmail(users).keys, Emails(users))
    ensures forall e :: e in ByEmail(users).entries ==>
      e in Emails(users) && ByEmail(users).entries[e] == users[LastIndex(Emails(users), e)]
  {
    if users != [] {
      var n := |users| - 1;
      var prefix, u := users[..n], users[n];
      var m' := ByEmail(prefix);
      var es', es := Emails(prefix), Emails(users);
      assert es == es' + [u.email];
      ByEmailSpec(prefix);
      SetKeepsFirstOccurrenceOrder(m', es', u.email, u);
      forall e | e in ByEmail(users).entries
        ensures e in es && ByEmail(users).entries[e] == users[LastIndex(es, e)]
      {
        if e != u.email {
          LastIndexAppend(es', u.email, e);
        }
      }
    }
  }

  /**
   * The de-duplicated list has exactly one user per distinct e-mail
   * address, in order of each address's first occurrence, and each entry is
   * the last user listed with that address (its name wins).
   */
  lemma UniqueUsersSpec(users: seq<User>)
    ensures FirstOccurrenceOrder(Emails(UniqueUsers(users)), Emails(users))
    ensures forall i :: 0 <= i < |UniqueUsers(users)| ==>
      UniqueUsers(users)[i].email in Emails(users) &&
      UniqueUsers(users)[i] == users[LastIndex(Emails(users), UniqueUsers(users)[i].email)]
  {
    ByEmailSpec(users);
    var m, unique := ByEmail(users), UniqueUsers(users);
    assert Emails(unique) == m.keys by {
      forall i | 0 <= i < |m.keys| ensures unique[i].email == m.keys[i] {
        var e := m.keys[i];
        assert Emails(users)[LastIndex(Emails(users), e)] == e;
      }
    }
  }

  /** Three commits by two authors, the second author twice, give the two authors in order. */
  lemma UniqueUsersExample()
    ensures UniqueUsers(ToUsers([
      CommitRecord("TestUser", "test@gmail.com"),
      CommitRecord("TestUser2", "test2@gmail.com"),
      CommitRecord("TestUser2", "test2@gmail.com")]))
      == [User("TestUser", "test@gmail.com"), User("TestUser2", "test2@gmail.com")]
  {
    var a, b := User("TestUser", "test@gmail.com"), User("TestUser2", "test2@gmail.com");
    var users := ToUsers([
      CommitRecord("TestUser", "test@gmail.com"),
      CommitRecord("TestUser2", "test2@gmail.com"),
      CommitRecord("TestUser2", "test2@gmail.com")]);
    assert users == [a, b, b];
    assert users[..2][..1] == [a];
    assert users[..2] == [a, b];
    assert ByEmail([a]) == OrderedMap([a.email], map[a.email := a]);
    assert ByEmail([a, b]) == OrderedMap([a.email, b.email], map[a.email := a, b.email := b]);
  }
}
