/** The Users record store: the INSERT with the password hash bound third,
    lookups with and without the hash, the sparse profile update, and the
    translation of unique-constraint violations into user-facing errors. */
module UserModel {
  import opened Js
  import opened Sql

  /** The columns every statement but the login lookups returns. */
  const PublicColumns: seq<string> := ["id", "username", "email", "full_name", "address", "created_at"]
  const PasswordHashColumn := "password_hash"

  /** Unique constraints on Users. */
  const UsernameKey := "users_username_key"
  const EmailKey := "users_email_key"

  const UsernameTaken := "Username already exists."
  const EmailTaken := "Email already registered."
  const EmailTakenByOther := "Email already registered by another user."

  /** The public columns never include the password hash. */
  lemma PublicColumnsOmitHash()
    ensures PasswordHashColumn !in PublicColumns
  {
  }

  /** ` RETURNING id, username, email, full_name, address, created_at;` */
  function ReturningPublic(): seq<Fragment> {
    [Text(" RETURNING "), ColumnList(PublicColumns), Text(";")]
  }

  lemma {:induction false} ReturningPublicShape()
    ensures Placeholders(ReturningPublic()) == []
    ensures Assignments(ReturningPublic()) == []
    ensures ResultColumns(ReturningPublic()) == PublicColumns
  {
    var t := ReturningPublic();
    assert t == [t[0]] + [t[1]] + [t[2]];
    Concatenated([t[0]], [t[1]]);
    Concatenated([t[0]] + [t[1]], [t[2]]);
    CollectOne(t[0], PlaceholdersOf);
    CollectOne(t[1], PlaceholdersOf);
    CollectOne(t[2], PlaceholdersOf);
    CollectOne(t[0], AssignmentsOf);
    CollectOne(t[1], AssignmentsOf);
    CollectOne(t[2], AssignmentsOf);
    CollectOne(t[0], ColumnsOf);
    CollectOne(t[1], ColumnsOf);
    CollectOne(t[2], ColumnsOf);
  }

  // ---------------------------------------------------------------------------
  // create

  /** The registration fields `create` takes. */
  datatype NewUser = NewUser(username: Value, email: Value, password: Value, fullName: Value, address: Value)

  function InsertText(): seq<Fragment> {
    [Text("INSERT INTO Users (username, email, password_hash, full_name, address) VALUES (")]
    + ParamList(1, 5) + [Text(")")] + ReturningPublic()
  }

  /** The hash, never the password itself, is bound at $3, the position of
      password_hash in the column list; the statement returns only the
      public columns. */
  function InsertQuery(u: NewUser, passwordHash: string): (q: Query)
    ensures q.args == [u.username, u.email, Str(passwordHash), u.fullName, u.address]
    ensures WellNumbered(q)
    ensures ResultColumns(q.text) == PublicColumns
  {
    InsertTextShape();
    Query(InsertText(), [u.username, u.email, Str(passwordHash), u.fullName, u.address])
  }

  lemma {:induction false} InsertTextShape()
    ensures |Placeholders(InsertText())| == 5 && Consecutive(Placeholders(InsertText()), 1)
    ensures ResultColumns(InsertText()) == PublicColumns
  {
    var prefix := [Text("INSERT INTO Users (username, email, password_hash, full_name, address) VALUES (")];
    var values := ParamList(1, 5);
    var close := [Text(")")];
    var returning := ReturningPublic();
    assert InsertText() == prefix + values + close + returning;
    ParamListNumbering(1, 5);
    ReturningPublicShape();
    CollectOne(prefix[0], PlaceholdersOf);
    CollectOne(prefix[0], ColumnsOf);
    CollectOne(close[0], PlaceholdersOf);
    CollectOne(close[0], ColumnsOf);
    assert Placeholders(InsertText()) == Placeholders(values) by {
      CollectAppend(prefix, values, PlaceholdersOf);
      CollectAppend(prefix + values, close, PlaceholdersOf);
      CollectAppend(prefix + values + close, returning, PlaceholdersOf);
      assert [] + Placeholders(values) + [] + [] == Placeholders(values);
    }
    assert ResultColumns(InsertText()) == ResultColumns(returning) by {
      CollectAppend(prefix, values, ColumnsOf);
      CollectAppend(prefix + values, close, ColumnsOf);
      CollectAppend(prefix + values + close, returning, ColumnsOf);
      assert [] + [] + [] + ResultColumns(returning) == ResultColumns(returning);
    }
  }

  /** The statement does not depend on the plaintext password: only its
      hash is sent. */
  lemma InsertIgnoresPassword(u: NewUser, other: Value, passwordHash: string)
    ensures InsertQuery(u, passwordHash) == InsertQuery(u.(password := other), passwordHash)
    ensures Str(passwordHash) == InsertQuery(u, passwordHash).args[2]
  {
    var a, b := InsertQuery(u, passwordHash), InsertQuery(u.(password := other), passwordHash);
    assert a.text == InsertText() == b.text;
    assert a.args == b.args;
  }

  /** A unique violation on the username or email constraint becomes a
      user-facing error; every other error, a unique violation on another
      constraint included, passes through unchanged. */
  function UniqueError(e: Error, emailTaken: string): (t: Error)
    ensures HasCode(e, UniqueViolation) && e.constraint == Some(UsernameKey) ==> t == NewError(UsernameTaken)
    ensures HasCode(e, UniqueViolation) && e.constraint == Some(EmailKey) ==> t == NewError(emailTaken)
    ensures !(HasCode(e, UniqueViolation) && e.constraint in {Some(UsernameKey), Some(EmailKey)}) ==> t == e
    ensures t.code.Some? ==> t == e
  {
    if HasCode(e, UniqueViolation) && e.constraint == Some(UsernameKey) then NewError(UsernameTaken)
    else if HasCode(e, UniqueViolation) && e.constraint == Some(EmailKey) then NewError(emailTaken)
    else e
  }

  /** `create`, given the bcrypt hash of the password. */
  function Create(db: Database, u: NewUser, passwordHash: string): (r: Run<Option<Row>>)
    ensures r.issued == [InsertQuery(u, passwordHash)]
    ensures db(InsertQuery(u, passwordHash)).Rows? ==>
      r.outcome == Returned(First(db(InsertQuery(u, passwordHash)).rows))
    ensures db(InsertQuery(u, passwordHash)).Failed? ==>
      r.outcome == Threw(UniqueError(db(InsertQuery(u, passwordHash)).error, EmailTaken))
  {
    var q := InsertQuery(u, passwordHash);
    match db(q)
    case Rows(rows) => Run(Returned(First(rows)), [q])
    case Failed(e) => Run(Threw(UniqueError(e, EmailTaken)), [q])
  }

  // ---------------------------------------------------------------------------
  // lookups

  /** The login lookups read every column, the hash included. */
  function ByEmailText(): seq<Fragment> {
    [Text("SELECT * FROM Users WHERE email = "), Param(1), Text(";")]
  }

  function ByUsernameText(): seq<Fragment> {
    [Text("SELECT * FROM Users WHERE username = "), Param(1), Text(";")]
  }

  function ByIdText(): seq<Fragment> {
    [Text("SELECT "), ColumnList(PublicColumns), Text(" FROM Users WHERE id = "), Param(1), Text(";")]
  }

  function ByEmailQuery(email: Value): (q: Query)
    ensures WellNumbered(q) && q.args == [email]
  {
    Query(ByEmailText(), [email])
  }

  function ByUsernameQuery(username: Value): (q: Query)
    ensures WellNumbered(q) && q.args == [username]
  {
    Query(ByUsernameText(), [username])
  }

  /** The lookup by id selects the public columns only. */
  function ByIdQuery(id: Value): (q: Query)
    ensures WellNumbered(q) && q.args == [id]
    ensures ResultColumns(q.text) == PublicColumns
  {
    Query(ByIdText(), [id])
  }

  function FindByEmail(db: Database, email: Value): (r: Run<Option<Row>>)
    ensures r.issued == [ByEmailQuery(email)]
    ensures r.outcome == Returned(None) <==> db(ByEmailQuery(email)) == Rows([])
    ensures db(ByEmailQuery(email)).Rows? && db(ByEmailQuery(email)).rows != [] ==>
      r.outcome == Returned(Some(db(ByEmailQuery(email)).rows[0]))
    ensures db(ByEmailQuery(email)).Failed? ==> r.outcome == Threw(db(ByEmailQuery(email)).error)
  {
    FirstRow(db, ByEmailQuery(email))
  }

  function FindByUsername(db: Database, username: Value): (r: Run<Option<Row>>)
    ensures r.issued == [ByUsernameQuery(username)]
    ensures r.outcome == Returned(None) <==> db(ByUsernameQuery(username)) == Rows([])
    ensures db(ByUsernameQuery(username)).Rows? && db(ByUsernameQuery(username)).rows != [] ==>
      r.outcome == Returned(Some(db(ByUsernameQuery(username)).rows[0]))
    ensures db(ByUsernameQuery(username)).Failed? ==> r.outcome == Threw(db(ByUsernameQuery(username)).error)
  {
    FirstRow(db, ByUsernameQuery(username))
  }

  function FindById(db: Database, id: Value): (r: Run<Option<Row>>)
    ensures r.issued == [ByIdQuery(id)]
    ensures r.outcome == Returned(None) <==> db(ByIdQuery(id)) == Rows([])
    ensures db(ByIdQuery(id)).Rows? && db(ByIdQuery(id)).rows != [] ==>
      r.outcome == Returned(Some(db(ByIdQuery(id)).rows[0]))
    ensures db(ByIdQuery(id)).Failed? ==> r.outcome == Threw(db(ByIdQuery(id)).error)
  {
    FirstRow(db, ByIdQuery(id))
  }

  // ---------------------------------------------------------------------------
  // updateProfile

  /** The four fields `updateProfile` reads; the password is not among them. */
  datatype Profile = Profile(fullName: Value, address: Value, email: Value, username: Value)

  /** The profile fields in the order they are added to the update object. */
  function ProfileEntries(p: Profile): seq<Entry> {
    [("full_name", p.fullName), ("address", p.address), ("email", p.email), ("username", p.username)]
  }

  /** The columns a profile update may set. */
  const ProfileColumns: set<string> := {"full_name", "address", "email", "username"}

  /** Collects the defined profile fields one `if` at a time, as
      `updateProfile` fills its update object. */
  method CollectProfileFields(p: Profile) returns (fields: seq<Entry>)
    ensures fields == Defined(ProfileEntries(p))
  {
    ghost var entries := ProfileEntries(p);
    fields := [];
    assert entries[..0] == [];
    assert entries[0] == ("full_name", p.fullName) && entries[1] == ("address", p.address);
    assert entries[2] == ("email", p.email) && entries[3] == ("username", p.username);
    if p.fullName != Undefined {
      fields := fields + [("full_name", p.fullName)];
    }
    DefinedSnoc(entries, 0);
    if p.address != Undefined {
      fields := fields + [("address", p.address)];
    }
    DefinedSnoc(entries, 1);
    if p.email != Undefined {
      fields := fields + [("email", p.email)];
    }
    DefinedSnoc(entries, 2);
    if p.username != Undefined {
      fields := fields + [("username", p.username)];
    }
    DefinedSnoc(entries, 3);
    assert entries[..4] == entries;
  }

  /** A profile update sets only profile columns, each at most once, never
      the password hash, and keeps the fields' order. */
  lemma ProfileFieldsAreProfileColumns(p: Profile)
    ensures forall e :: e in Defined(ProfileEntries(p)) ==> e.0 in ProfileColumns
    ensures forall e :: e in Defined(ProfileEntries(p)) ==> e.0 != PasswordHashColumn
    ensures DistinctKeys(Defined(ProfileEntries(p)))
  {
    var entries := ProfileEntries(p);
    DefinedMembers(entries);
    forall e | e in Defined(entries)
      ensures e.0 in ProfileColumns && e.0 != PasswordHashColumn
    {
      assert e in entries;
    }
    ProfileKeysDistinct(p);
    DefinedKeepsDistinctKeys(entries);
  }

  lemma ProfileKeysDistinct(p: Profile)
    ensures DistinctKeys(ProfileEntries(p))
  {
    var entries := ProfileEntries(p);
    assert |entries[0].0| == 9 && |entries[1].0| == 7 && |entries[2].0| == 5 && |entries[3].0| == 8;
  }

  /** `UPDATE Users SET k1 = $1, ..., kn = $n WHERE id = $n+1 RETURNING <public columns>`. */
  function ProfileQuery(id: Value, kept: seq<Entry>): (q: Query)
    requires |kept| > 0
    ensures |q.args| == |kept| + 1 && q.args[|kept|] == id
    ensures forall i :: 0 <= i < |kept| ==> q.args[i] == kept[i].1
    ensures WellNumbered(q)
    ensures |Assignments(q.text)| == |kept|
    ensures forall i :: 0 <= i < |kept| ==> Assignments(q.text)[i] == (kept[i].0, i + 1)
    ensures ResultColumns(q.text) == PublicColumns
  {
    var n := |kept|;
    var lead := [Text("UPDATE Users SET ")];
    var clauses := SetClauses(kept, 1);
    var key := [Text(" WHERE id = "), Param(n + 1)];
    SetClausesNumbering(kept, 1);
    ProfileTextNumbering(n, lead, clauses, key);
    Query(lead + clauses + key + ReturningPublic(), Values(kept) + [id])
  }

  lemma {:induction false} ProfileTextNumbering(n: nat, lead: seq<Fragment>, clauses: seq<Fragment>, key: seq<Fragment>)
    requires lead == [Text("UPDATE Users SET ")]
    requires key == [Text(" WHERE id = "), Param(n + 1)]
    requires |Placeholders(clauses)| == n && Consecutive(Placeholders(clauses), 1)
    requires ResultColumns(clauses) == []
    ensures |Placeholders(lead + clauses + key + ReturningPublic())| == n + 1
    ensures Consecutive(Placeholders(lead + clauses + key + ReturningPublic()), 1)
    ensures Assignments(lead + clauses + key + ReturningPublic()) == Assignments(clauses)
    ensures ResultColumns(lead + clauses + key + ReturningPublic()) == PublicColumns
  {
    ReturningPublicShape();
    Concatenated(lead, clauses);
    Concatenated(lead + clauses, key);
    Concatenated(lead + clauses + key, ReturningPublic());
    CollectOne(lead[0], PlaceholdersOf);
    CollectOne(lead[0], AssignmentsOf);
    CollectOne(lead[0], ColumnsOf);
    assert key == [key[0]] + [key[1]];
    Concatenated([key[0]], [key[1]]);
    CollectOne(key[0], PlaceholdersOf);
    CollectOne(key[0], AssignmentsOf);
    CollectOne(key[0], ColumnsOf);
    CollectOne(key[1], PlaceholdersOf);
    CollectOne(key[1], AssignmentsOf);
    CollectOne(key[1], ColumnsOf);
  }

  /** `updateProfile`: with no defined field it is a plain `findById`;
      otherwise one UPDATE that settles to undefined when no row has the id
      and translates unique violations ("by another user" for the email). */
  function UpdateProfile(db: Database, id: Value, p: Profile): (r: Run<Option<Row>>)
    ensures Defined(ProfileEntries(p)) == [] ==> r == FindById(db, id)
    ensures Defined(ProfileEntries(p)) != [] ==>
      var q := ProfileQuery(id, Defined(ProfileEntries(p)));
      && r.issued == [q]
      && (db(q).Rows? ==> r.outcome == Returned(First(db(q).rows)))
      && (db(q).Failed? ==> r.outcome == Threw(UniqueError(db(q).error, EmailTakenByOther)))
  {
    var kept := Defined(ProfileEntries(p));
    if kept == [] then FindById(db, id)
    else
      var q := ProfileQuery(id, kept);
      match db(q)
      case Rows(rows) => Run(Returned(First(rows)), [q])
      case Failed(e) => Run(Threw(UniqueError(e, EmailTakenByOther)), [q])
  }

  /** No statement `create`, `findById` or `updateProfile` sends asks for the
      password hash back, and a profile update never assigns it. */
  lemma HashNeverReturned(u: NewUser, passwordHash: string, id: Value, p: Profile)
    ensures PasswordHashColumn !in ResultColumns(InsertQuery(u, passwordHash).text)
    ensures PasswordHashColumn !in ResultColumns(ByIdQuery(id).text)
    ensures Defined(ProfileEntries(p)) != [] ==>
      var q := ProfileQuery(id, Defined(ProfileEntries(p)));
      && PasswordHashColumn !in ResultColumns(q.text)
      && forall i :: 0 <= i < |Assignments(q.text)| ==> Assignments(q.text)[i].0 != PasswordHashColumn
  {
    PublicColumnsOmitHash();
    ProfileFieldsAreProfileColumns(p);
    var kept := Defined(ProfileEntries(p));
    if kept != [] {
      var q := ProfileQuery(id, kept);
      forall i | 0 <= i < |Assignments(q.text)|
        ensures Assignments(q.text)[i].0 != PasswordHashColumn
      {
        assert Assignments(q.text)[i] == (kept[i].0, i + 1);
        assert kept[i] in kept;
      }
    }
  }
}
