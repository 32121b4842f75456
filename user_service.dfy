/** The user registry (backend/app/services/user_service.py): registration
    refuses a taken email, then a taken username, and stores only the
    password's hash; an update applies a dictionary of field changes, the
    password turned into its hash first; a delete drops the row. The hash
    is a parameter: the password hashing library is not part of this model. */
module UserService {
  import opened Text
  import opened Models
  import opened Errors
  import opened Store

  /** The user with the lowest key below `n` whose `key` is `value`, as a
      query on that column finds it. */
  function FindBy(users: map<Id, User>, key: User -> string, value: string, n: nat): (r: Option<User>)
    ensures r.Some? ==> exists k :: k < n && k in users && users[k] == r.value && key(r.value) == value
    ensures r.None? <==> forall k :: k < n && k in users ==> key(users[k]) != value
  {
    if n == 0 then None
    else
      match FindBy(users, key, value, n - 1)
      case Some(u) => Some(u)
      case None =>
        if n - 1 in users && key(users[n - 1]) == value then Some(users[n - 1]) else None
  }

  function EmailOf(u: User): string { u.email }

  function UsernameOf(u: User): string { u.username }

  /** `get_by_email` over the keys below `n`. */
  function GetByEmail(users: map<Id, User>, email: string, n: nat): Option<User>
  {
    FindBy(users, EmailOf, email, n)
  }

  /** `get_by_username` over the keys below `n`. */
  function GetByUsername(users: map<Id, User>, username: string, n: nat): Option<User>
  {
    FindBy(users, UsernameOf, username, n)
  }

  /** `create`: the email check comes first, then the username check; a new
      user is stored with the hash of the password, active and not an admin. */
  method Create(db: Database, email: string, username: string, password: string,
                fullName: Option<string>, hash: string -> string) returns (r: Result<User>)
    requires db.Valid()
    modifies db
    ensures db.Valid()
    ensures db.products == old(db.products) && db.carts == old(db.carts)
    ensures db.cartOfUser == old(db.cartOfUser) && db.items == old(db.items)
    ensures r.Err? ==> db.users == old(db.users) && db.nextId == old(db.nextId)
    ensures r == CreateOutcome(old(db.users), old(db.nextId), email, username, password, fullName, hash)
    ensures r.Ok? ==> db.users == old(db.users)[r.value.id := r.value] && db.nextId == old(db.nextId) + 1
  {
    var byEmail := GetByEmail(db.users, email, db.nextId);
    if byEmail.Some? {
      return Err(DuplicateEntity("User", "email", email));
    }
    var byUsername := GetByUsername(db.users, username, db.nextId);
    if byUsername.Some? {
      return Err(DuplicateEntity("User", "username", username));
    }
    var hashedPassword := hash(password);
    var user := NewUser(db.nextId, email, username, fullName, hashedPassword);
    db.users := db.users[user.id := user];
    db.nextId := db.nextId + 1;
    r := Ok(user);
  }

  /** What a registration answers for a store whose fresh key is `n`. */
  function CreateOutcome(users: map<Id, User>, n: nat, email: string, username: string, password: string,
                         fullName: Option<string>, hash: string -> string): Result<User>
  {
    if GetByEmail(users, email, n).Some? then Err(DuplicateEntity("User", "email", email))
    else if GetByUsername(users, username, n).Some? then Err(DuplicateEntity("User", "username", username))
    else Ok(NewUser(n, email, username, fullName, hash(password)))
  }

  /** Registration refuses exactly the taken logins, the email reported
      first when both are taken; an accepted user carries the given fields
      and the password's hash. */
  lemma CreateOutcomeCases(users: map<Id, User>, n: nat, email: string, username: string, password: string,
                           fullName: Option<string>, hash: string -> string)
    requires KeysBelow(users, n)
    ensures var r := CreateOutcome(users, n, email, username, password, fullName, hash);
      && ((exists k :: k in users && users[k].email == email) ==>
            r == Err(DuplicateEntity("User", "email", email)) && r.error.StatusCode() == 409)
      && ((forall k :: k in users ==> users[k].email != email)
          && (exists k :: k in users && users[k].username == username) ==>
            r == Err(DuplicateEntity("User", "username", username)))
      && (r.Ok? <==> forall k :: k in users ==> users[k].email != email && users[k].username != username)
      && (r.Ok? ==> r.value.email == email && r.value.username == username && r.value.fullName == fullName
                    && r.value.hashedPassword == hash(password) && r.value.isActive && !r.value.isAdmin)
  {
    var byEmail := GetByEmail(users, email, n);
    var byUsername := GetByUsername(users, username, n);
    if exists k :: k in users && users[k].email == email {
      var k :| k in users && users[k].email == email;
      assert EmailOf(users[k]) == email;
    }
    if exists k :: k in users && users[k].username == username {
      var k :| k in users && users[k].username == username;
      assert UsernameOf(users[k]) == username;
    }
  }

  /** Registration keeps emails and usernames unique. */
  lemma CreateKeepsLoginsUnique(users: map<Id, User>, n: nat, email: string, username: string,
                                password: string, fullName: Option<string>, hash: string -> string)
    requires KeysBelow(users, n) && UniqueLogins(users)
    ensures var r := CreateOutcome(users, n, email, username, password, fullName, hash);
      r.Ok? ==> UniqueLogins(users[n := r.value])
  {
    CreateOutcomeCases(users, n, email, username, password, fullName, hash);
  }

  // ---------------------------------------------------------------- update

  /** The keys an update dictionary may carry. */
  datatype UserField = Email | Username | FullName | Phone | Password | HashedPassword | IsActive | IsAdmin

  datatype FieldValue = Text(text: string) | Null | Flag(flag: bool)

  /** The value a field accepts: text for the required texts, text or null
      for the optional ones, a flag for the two booleans. */
  predicate Fits(f: UserField, v: FieldValue)
  {
    match f
    case Email => v.Text?
    case Username => v.Text?
    case Password => v.Text?
    case HashedPassword => v.Text?
    case FullName => v.Text? || v.Null?
    case Phone => v.Text? || v.Null?
    case IsActive => v.Flag?
    case IsAdmin => v.Flag?
  }

  predicate WellTyped(changes: map<UserField, FieldValue>)
  {
    forall f :: f in changes ==> Fits(f, changes[f])
  }

  function OptionalText(v: FieldValue): Option<string>
  {
    if v.Text? then Some(v.text) else None
  }

  /** The dictionary after its "password" entry is replaced by a
      "hashed_password" entry holding the hash. */
  function Hashed(changes: map<UserField, FieldValue>, hash: string -> string): (r: map<UserField, FieldValue>)
    requires WellTyped(changes)
    ensures WellTyped(r) && Password !in r
    ensures Password in changes ==> r == (changes - {Password})[HashedPassword := Text(hash(changes[Password].text))]
    ensures Password !in changes ==> r == changes
  {
    if Password in changes then (changes - {Password})[HashedPassword := Text(hash(changes[Password].text))]
    else changes
  }

  /** `setattr(user, f, v)`. */
  function Assign(u: User, f: UserField, v: FieldValue): User
    requires Fits(f, v) && f != Password
  {
    match f
    case Email => u.(email := v.text)
    case Username => u.(username := v.text)
    case FullName => u.(fullName := OptionalText(v))
    case Phone => u.(phone := OptionalText(v))
    case HashedPassword => u.(hashedPassword := v.text)
    case IsActive => u.(isActive := v.flag)
    case IsAdmin => u.(isAdmin := v.flag)
  }

  /** The user with every field named in `changes` set to its value. */
  function WithChanges(u: User, changes: map<UserField, FieldValue>): User
    requires WellTyped(changes) && Password !in changes
  {
    User(u.id,
         if Email in changes then changes[Email].text else u.email,
         if Username in changes then changes[Username].text else u.username,
         if FullName in changes then OptionalText(changes[FullName]) else u.fullName,
         if Phone in changes then OptionalText(changes[Phone]) else u.phone,
         if IsActive in changes then changes[IsActive].flag else u.isActive,
         if IsAdmin in changes then changes[IsAdmin].flag else u.isAdmin,
         if HashedPassword in changes then changes[HashedPassword].text else u.hashedPassword)
  }

  function Restrict(changes: map<UserField, FieldValue>, keys: set<UserField>): (r: map<UserField, FieldValue>)
    ensures forall f :: f in r <==> f in changes && f in keys
    ensures forall f :: f in r ==> r[f] == changes[f]
  {
    map f | f in changes && f in keys :: changes[f]
  }

  /** One more setattr extends the changes applied so far by that key. */
  lemma AssignStep(u: User, changes: map<UserField, FieldValue>, done: set<UserField>, f: UserField)
    requires WellTyped(changes) && Password !in changes && f in changes && f !in done
    ensures WithChanges(u, Restrict(changes, done + {f}))
         == Assign(WithChanges(u, Restrict(changes, done)), f, changes[f])
  {
  }

  /** The values an update dictionary can carry: those the fields accept,
      and also an explicit null for the email, the username or the password,
      which the update model's optional fields let through. */
  predicate MayCarry(f: UserField, v: FieldValue)
  {
    Fits(f, v) || (v.Null? && (f == Email || f == Username || f == Password))
  }

  predicate Carried(changes: map<UserField, FieldValue>)
  {
    forall f :: f in changes ==> MayCarry(f, changes[f])
  }

  /** How an update ends: the saved user, or the exception that escapes. */
  datatype UpdateOutcome =
    | Saved(user: User)
      /** Hashing a null password raises before any field is set. */
    | NullPasswordHashed
      /** The commit refuses a null email or username (NOT NULL columns). */
    | NotNullViolated

  /** The outcome of applying `changes` to the stored user `u`. */
  function UpdateOutcomeOf(u: User, changes: map<UserField, FieldValue>, hash: string -> string): UpdateOutcome
    requires Carried(changes)
  {
    if Password in changes && changes[Password].Null? then NullPasswordHashed
    else if (Email in changes && changes[Email].Null?) || (Username in changes && changes[Username].Null?)
    then NotNullViolated
    else Saved(WithChanges(u, Hashed(changes, hash)))
  }

  /** An update goes through exactly when no password, email or username is
      given as null, and a null password is reported before a null login. */
  lemma UpdateFailsIff(u: User, changes: map<UserField, FieldValue>, hash: string -> string)
    requires Carried(changes)
    ensures UpdateOutcomeOf(u, changes, hash).Saved? <==>
              forall f :: f in changes && changes[f].Null? ==> f == FullName || f == Phone
    ensures UpdateOutcomeOf(u, changes, hash).Saved? ==> WellTyped(changes)
    ensures Password in changes && changes[Password].Null? ==>
              UpdateOutcomeOf(u, changes, hash) == NullPasswordHashed
  {
    if forall f :: f in changes && changes[f].Null? ==> f == FullName || f == Phone {
      forall f | f in changes
        ensures Fits(f, changes[f])
      {
        assert MayCarry(f, changes[f]);
      }
    }
  }

  /** `update`: hashes a given password into "hashed_password", then sets
      each key of the dictionary on the user, one at a time, and commits. A
      null password makes the hashing raise; a null email or username makes
      the commit raise; either way the stored row stays as it was. */
  method Update(db: Database, userId: Id, userData: map<UserField, FieldValue>, hash: string -> string)
    returns (r: UpdateOutcome)
    requires db.Valid() && userId in db.users && Carried(userData)
    modifies db
    ensures db.Valid()
    ensures r == UpdateOutcomeOf(old(db.users[userId]), userData, hash)
    ensures r.Saved? ==> db.users == old(db.users)[userId := r.user]
    ensures !r.Saved? ==> db.users == old(db.users)
    ensures db.products == old(db.products) && db.carts == old(db.carts) && db.cartOfUser == old(db.cartOfUser)
    ensures db.items == old(db.items) && db.nextId == old(db.nextId)
  {
    if Password in userData && userData[Password].Null? {
      return NullPasswordHashed;
    }
    var data := userData;
    if Password in data {
      var password := data[Password].text;
      data := data - {Password};
      data := data[HashedPassword := Text(hash(password))];
    }
    if (Email in data && data[Email].Null?) || (Username in data && data[Username].Null?) {
      // The setattr calls go through on the in-memory object; the commit refuses them.
      return NotNullViolated;
    }
    assert WellTyped(data);
    var user := db.users[userId];
    ghost var original := user;
    var pending := data.Keys;
    ghost var done: set<UserField> := {};
    assert Restrict(data, done) == map[];
    while pending != {}
      invariant pending !! done && pending + done == data.Keys
      invariant user == WithChanges(original, Restrict(data, done))
      invariant unchanged(db)
      decreases pending
    {
      var f :| f in pending;
      AssignStep(original, data, done, f);
      user := Assign(user, f, data[f]);
      pending := pending - {f};
      done := done + {f};
    }
    assert Restrict(data, done) == data;
    db.users := db.users[userId := user];
    r := Saved(user);
  }

  /** The read-back of one field. */
  function Get(u: User, f: UserField): FieldValue
  {
    match f
    case Email => Text(u.email)
    case Username => Text(u.username)
    case FullName => if u.fullName.Some? then Text(u.fullName.value) else Null
    case Phone => if u.phone.Some? then Text(u.phone.value) else Null
    case Password => Null
    case HashedPassword => Text(u.hashedPassword)
    case IsActive => Flag(u.isActive)
    case IsAdmin => Flag(u.isAdmin)
  }

  /** An update sets exactly the given fields and leaves the rest: each
      stored field reads back as its new value when the dictionary names it
      and as before otherwise; a given password is stored only as its hash. */
  lemma {:induction false} UpdateSetsExactly(u: User, userData: map<UserField, FieldValue>, hash: string -> string, f: UserField)
    requires WellTyped(userData) && f != Password
    ensures var v := WithChanges(u, Hashed(userData, hash));
      && v.id == u.id
      && (f in Hashed(userData, hash) ==> Get(v, f) == Hashed(userData, hash)[f])
      && (f !in Hashed(userData, hash) ==> Get(v, f) == Get(u, f))
      && (Password in userData ==> v.hashedPassword == hash(userData[Password].text))
  {
    var d := Hashed(userData, hash);
    var v := WithChanges(u, d);
    match f {
      case FullName =>
        if FullName in d { assert Fits(FullName, d[FullName]); }
      case Phone =>
        if Phone in d { assert Fits(Phone, d[Phone]); }
      case _ =>
    }
  }

  /** An update checks no uniqueness: it can give a user another user's
      email, which the unique index then has to refuse. */
  lemma UpdateCanDuplicateEmail(hash: string -> string)
    ensures var a := NewUser(0, "a@x", "a", None, "h");
      var b := NewUser(1, "b@x", "b", None, "h");
      var users := map[0 := a, 1 := b];
      UniqueLogins(users)
      && !UniqueLogins(users[1 := WithChanges(b, Hashed(map[Email := Text("a@x")], hash))])
  {
    var a := NewUser(0, "a@x", "a", None, "h");
    var b := NewUser(1, "b@x", "b", None, "h");
    assert a.email != b.email && a.username != b.username;
    var changes := map[Email := Text("a@x")];
    assert Password !in changes;
    var b2 := WithChanges(b, Hashed(changes, hash));
    assert b2.email == "a@x";
    var after := map[0 := a, 1 := b][1 := b2];
    assert 0 in after && 1 in after && after[0].email == after[1].email;
  }

  // ---------------------------------------------------------------- delete

  /** `delete`: removes exactly that user's row. */
  method Delete(db: Database, userId: Id)
    requires db.Valid()
    modifies db
    ensures db.Valid()
    ensures db.users == old(db.users) - {userId}
    ensures db.products == old(db.products) && db.carts == old(db.carts) && db.cartOfUser == old(db.cartOfUser)
    ensures db.items == old(db.items) && db.nextId == old(db.nextId)
  {
    db.users := db.users - {userId};
  }
}
