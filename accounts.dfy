/**
 * The account table (`patients.csv`): one row per login with its username,
 * plaintext password, role and status. The handlers read the whole table,
 * select or change rows in memory and write the whole table back; here the
 * table is a sequence of rows held by an `AccountStore` object.
 */
module Accounts {
  import opened Wrappers
  import opened Text

  const Patient := "paciente"
  const Active := "active"
  const Archived := "archived"

  datatype Account = Account(username: string, password: string, role: string, status: string)

  /** Some row of the table has exactly this username. */
  predicate HasUsername(rows: seq<Account>, username: string) {
    exists i :: 0 <= i < |rows| && rows[i].username == username
  }

  /** Number of rows with this username. */
  function CountUsername(rows: seq<Account>, username: string): nat {
    if rows == [] then 0
    else (if rows[0].username == username then 1 else 0) + CountUsername(rows[1..], username)
  }

  /** No username occurs twice. */
  predicate UniqueUsernames(rows: seq<Account>) {
    forall i, j :: 0 <= i < j < |rows| ==> rows[i].username != rows[j].username
  }

  // ---------------------------------------------------------------------------
  // Selection: the dashboard and the archived list

  /** The rows with this role and status, in table order. */
  function Select(rows: seq<Account>, role: string, status: string): (r: seq<Account>)
    ensures |r| <= |rows|
    ensures forall a :: a in r <==> a in rows && a.role == role && a.status == status
  {
    if rows == [] then []
    else
      var rest := Select(rows[1..], role, status);
      assert forall a :: a in rows <==> a == rows[0] || a in rows[1..];
      if rows[0].role == role && rows[0].status == status then [rows[0]] + rest else rest
  }

  /** The dashboard list: patients whose status is active. */
  function ActivePatients(rows: seq<Account>): (r: seq<Account>)
    ensures forall a :: a in r <==> a in rows && a.role == Patient && a.status == Active
  {
    Select(rows, Patient, Active)
  }

  /** The archived list: patients whose status is archived. */
  function ArchivedPatients(rows: seq<Account>): (r: seq<Account>)
    ensures forall a :: a in r <==> a in rows && a.role == Patient && a.status == Archived
  {
    Select(rows, Patient, Archived)
  }

  /** Selection keeps table order: it distributes over concatenation of tables. */
  lemma {:induction false} SelectAppend(a: seq<Account>, b: seq<Account>, role: string, status: string)
    ensures Select(a + b, role, status) == Select(a, role, status) + Select(b, role, status)
  {
    if a != [] {
      assert (a + b)[0] == a[0] && (a + b)[1..] == a[1..] + b;
      SelectAppend(a[1..], b, role, status);
    } else {
      assert a + b == b;
    }
  }

  /** The two lists never share a row, and neither lists a nutritionist. */
  lemma ListsDisjoint(rows: seq<Account>)
    ensures forall a :: !(a in ActivePatients(rows) && a in ArchivedPatients(rows))
    ensures forall a :: a in ActivePatients(rows) + ArchivedPatients(rows) ==> a.role == Patient && a in rows
  {
  }

  // ---------------------------------------------------------------------------
  // Login

  /** Position of the first row with this username (`.iloc[0]` of the match). */
  function FirstWithUsername(rows: seq<Account>, username: string): (r: Option<nat>)
    ensures r.None? <==> !HasUsername(rows, username)
    ensures r.Some? ==> r.value < |rows| && rows[r.value].username == username
    ensures r.Some? ==> forall j :: 0 <= j < r.value ==> rows[j].username != username
  {
    if rows == [] then None
    else if rows[0].username == username then Some(0)
    else
      var rest := FirstWithUsername(rows[1..], username);
      assert HasUsername(rows, username) ==> HasUsername(rows[1..], username) by {
        if HasUsername(rows, username) {
          var i :| 0 <= i < |rows| && rows[i].username == username;
          assert rows[1..][i - 1].username == username;
        }
      }
      match rest
      case None => None
      case Some(i) => Some(i + 1)
  }

  /** `load_user`: the first row with this username, if any; no username matches nothing. */
  function LoadUser(rows: seq<Account>, username: Option<string>): (user: Option<Account>)
    ensures user.Some? <==> username.Some? && HasUsername(rows, username.value)
    ensures user.Some? ==>
              exists i :: 0 <= i < |rows| && user.value == rows[i] && rows[i].username == username.value &&
                          forall j :: 0 <= j < i ==> rows[j].username != username.value
  {
    if username.None? then None
    else
      match FirstWithUsername(rows, username.value)
      case None => None
      case Some(i) => Some(rows[i])
  }

  /** The login check: the user loads and the stored password equals the submitted one. */
  function LoginSucceeds(rows: seq<Account>, username: Option<string>, password: Option<string>): (ok: bool)
    ensures ok <==>
      && username.Some? && password.Some?
      && exists i :: 0 <= i < |rows| && rows[i].username == username.value
                     && rows[i].password == password.value
                     && forall j :: 0 <= j < i ==> rows[j].username != username.value
  {
    var user := LoadUser(rows, username);
    user.Some? && password.Some? && user.value.password == password.value
  }

  // ---------------------------------------------------------------------------
  // Creating a patient

  datatype CreateOutcome = Created | MissingField | DuplicateUsername

  /** The checks of `create_patient`, in the source's order. */
  function CreateCheck(rows: seq<Account>, username: Option<string>, password: Option<string>): (r: CreateOutcome)
    ensures r == Created <==> Truthy(username) && Truthy(password) && !HasUsername(rows, username.value)
    ensures r == MissingField <==> !Truthy(username) || !Truthy(password)
  {
    if !Truthy(username) || !Truthy(password) then MissingField
    else if HasUsername(rows, username.value) then DuplicateUsername
    else Created
  }

  /** The row a successful `create_patient` appends. */
  function NewPatient(username: string, password: string): Account {
    Account(username, password, Patient, Active)
  }

  /** The table after `create_patient`: one new active patient at the end, or unchanged. */
  function CreateRows(rows: seq<Account>, username: Option<string>, password: Option<string>): (r: seq<Account>)
    ensures CreateCheck(rows, username, password) == Created ==>
      |r| == |rows| + 1 && r[..|rows|] == rows && r[|rows|] == NewPatient(username.value, password.value)
    ensures CreateCheck(rows, username, password) != Created ==> r == rows
  {
    if CreateCheck(rows, username, password) == Created
    then rows + [NewPatient(username.value, password.value)]
    else rows
  }

  lemma {:induction false} CountAppend(rows: seq<Account>, extra: seq<Account>, u: string)
    ensures CountUsername(rows + extra, u) == CountUsername(rows, u) + CountUsername(extra, u)
  {
    if rows != [] {
      assert (rows + extra)[0] == rows[0] && (rows + extra)[1..] == rows[1..] + extra;
      CountAppend(rows[1..], extra, u);
    } else {
      assert rows + extra == extra;
    }
  }

  lemma {:induction false} CountZero(rows: seq<Account>, u: string)
    ensures CountUsername(rows, u) == 0 <==> !HasUsername(rows, u)
  {
    if rows != [] {
      CountZero(rows[1..], u);
      if HasUsername(rows, u) && rows[0].username != u {
        var i :| 0 <= i < |rows| && rows[i].username == u;
        assert rows[1..][i - 1].username == u;
      }
      if HasUsername(rows[1..], u) {
        var i :| 0 <= i < |rows[1..]| && rows[1..][i].username == u;
        assert rows[i + 1].username == u;
      }
    }
  }

  /** Creating keeps usernames unique: the duplicate check rejects a second row. */
  lemma CreateKeepsUnique(rows: seq<Account>, username: Option<string>, password: Option<string>)
    requires UniqueUsernames(rows)
    ensures UniqueUsernames(CreateRows(rows, username, password))
  {
    if CreateCheck(rows, username, password) == Created {
      var r := CreateRows(rows, username, password);
      forall i, j | 0 <= i < j < |r| ensures r[i].username != r[j].username {
        if j == |rows| {
          assert r[i] == rows[i];
        }
      }
    }
  }

  /** Creating the same username twice leaves one row for it and reports the duplicate. */
  lemma CreateTwice(rows: seq<Account>, username: Option<string>, p1: Option<string>, p2: Option<string>)
    requires CreateCheck(rows, username, p1) == Created
    requires Truthy(p2)
    ensures var once := CreateRows(rows, username, p1);
      && CreateCheck(once, username, p2) == DuplicateUsername
      && CreateRows(once, username, p2) == once
      && CountUsername(once, username.value) == 1
  {
    var once := CreateRows(rows, username, p1);
    assert once[|rows|].username == username.value;
    CountAppend(rows, [NewPatient(username.value, p1.value)], username.value);
    CountZero(rows, username.value);
  }

  /** A newly created patient is listed last on the dashboard and can log in. */
  lemma CreatedIsListedAndCanLogIn(rows: seq<Account>, username: Option<string>, password: Option<string>)
    requires CreateCheck(rows, username, password) == Created
    ensures var r := CreateRows(rows, username, password);
      && ActivePatients(r) == ActivePatients(rows) + [NewPatient(username.value, password.value)]
      && ArchivedPatients(r) == ArchivedPatients(rows)
      && LoginSucceeds(r, username, password)
  {
    var row := NewPatient(username.value, password.value);
    var r := CreateRows(rows, username, password);
    assert r == rows + [row];
    SelectAppend(rows, [row], Patient, Active);
    SelectAppend(rows, [row], Patient, Archived);
    assert Select([row], Patient, Archived) == [];
    assert r[|rows|].username == username.value;
  }

  // ---------------------------------------------------------------------------
  // Changing a status

  /** The table after `set_patient_status(username, status)`. */
  function WithStatus(rows: seq<Account>, username: string, status: string): (r: seq<Account>)
    ensures |r| == |rows|
    ensures forall i :: 0 <= i < |rows| ==>
      && r[i].username == rows[i].username
      && r[i].password == rows[i].password
      && r[i].role == rows[i].role
      && r[i].status == (if rows[i].username == username then status else rows[i].status)
  {
    seq(|rows|, i requires 0 <= i < |rows| =>
      if rows[i].username == username then rows[i].(status := status) else rows[i])
  }

  /** An absent username leaves the table as it was. */
  lemma WithStatusAbsent(rows: seq<Account>, username: string, status: string)
    requires !HasUsername(rows, username)
    ensures WithStatus(rows, username, status) == rows
  {
    var r := WithStatus(rows, username, status);
    assert forall i :: 0 <= i < |rows| ==> r[i] == rows[i];
  }

  /** A later status change of the same username overrides an earlier one. */
  lemma WithStatusTwice(rows: seq<Account>, username: string, s1: string, s2: string)
    ensures WithStatus(WithStatus(rows, username, s1), username, s2) == WithStatus(rows, username, s2)
  {
    var a := WithStatus(WithStatus(rows, username, s1), username, s2);
    var b := WithStatus(rows, username, s2);
    assert forall i :: 0 <= i < |rows| ==> a[i] == b[i];
  }

  /** Archive then restore sets the username's rows active and changes nothing else. */
  lemma ArchiveThenRestore(rows: seq<Account>, username: string)
    ensures var r := WithStatus(WithStatus(rows, username, Archived), username, Active);
      && |r| == |rows|
      && forall i :: 0 <= i < |rows| ==>
           r[i] == if rows[i].username == username then rows[i].(status := Active) else rows[i]
  {
    WithStatusTwice(rows, username, Archived, Active);
  }

  /** For a username whose rows are all active, archive then restore gives back the same table. */
  lemma ArchiveThenRestoreActive(rows: seq<Account>, username: string)
    requires forall i :: 0 <= i < |rows| && rows[i].username == username ==> rows[i].status == Active
    ensures WithStatus(WithStatus(rows, username, Archived), username, Active) == rows
  {
    var r := WithStatus(WithStatus(rows, username, Archived), username, Active);
    WithStatusTwice(rows, username, Archived, Active);
    assert forall i :: 0 <= i < |rows| ==> r[i] == rows[i];
  }

  /** After archiving, the username is off the dashboard and its patient rows are in the archived list. */
  lemma ArchivedLeavesDashboard(rows: seq<Account>, username: string)
    ensures var r := WithStatus(rows, username, Archived);
      && (forall a :: a in ActivePatients(r) ==> a.username != username)
      && (forall i :: 0 <= i < |rows| && rows[i].username == username && rows[i].role == Patient ==>
            rows[i].(status := Archived) in ArchivedPatients(r))
  {
    var r := WithStatus(rows, username, Archived);
    forall a | a in ActivePatients(r) ensures a.username != username {
      var i :| 0 <= i < |r| && r[i] == a;
    }
    forall i | 0 <= i < |rows| && rows[i].username == username && rows[i].role == Patient
      ensures rows[i].(status := Archived) in ArchivedPatients(r)
    {
      assert r[i] == rows[i].(status := Archived);
    }
  }

  // ---------------------------------------------------------------------------
  // The store

  /**
   * The accounts file: whether it exists and, if it does, its rows. A missing
   * file reads as a missing table: lists are empty, logins fail, a status
   * change reports failure, and creating a patient writes a new file.
   */
  class AccountStore {
    var present: bool
    var rows: seq<Account>

    ghost predicate Valid()
      reads this
    {
      !present ==> rows == []
    }

    constructor (present: bool, rows: seq<Account>)
      requires present || rows == []
      ensures Valid() && this.present == present && this.rows == rows
    {
      this.present := present;
      this.rows := rows;
    }

    /** `create_patient`: validate, check for a duplicate, append one row and write the file. */
    method CreatePatient(username: Option<string>, password: Option<string>) returns (outcome: CreateOutcome)
      requires Valid()
      modifies this
      ensures Valid()
      ensures outcome == CreateCheck(old(rows), username, password)
      ensures rows == CreateRows(old(rows), username, password)
      ensures present == (old(present) || outcome == Created)
    {
      outcome := CreateCheck(rows, username, password);
      if outcome == Created {
        rows := rows + [NewPatient(username.value, password.value)];
        present := true;
      }
    }

    /**
     * `set_patient_status`: rewrite the status of every row with this username,
     * in place, and write the file. Reports failure only when there is no file.
     */
    method SetPatientStatus(username: string, status: string) returns (ok: bool)
      requires Valid()
      modifies this
      ensures Valid() && present == old(present)
      ensures ok == present
      ensures rows == WithStatus(old(rows), username, status)
    {
      if !present {
        return false;
      }
      var i := 0;
      while i < |rows|
        invariant 0 <= i <= |rows| == |old(rows)|
        invariant rows[..i] == WithStatus(old(rows), username, status)[..i]
        invariant rows[i..] == old(rows)[i..]
        invariant present == old(present)
      {
        if rows[i].username == username {
          rows := rows[i := rows[i].(status := status)];
        }
        i := i + 1;
      }
      assert rows == rows[..i];
      return true;
    }

    /** `archive_patient`. */
    method ArchivePatient(username: string) returns (ok: bool)
      requires Valid()
      modifies this
      ensures Valid() && present == old(present) && ok == present
      ensures rows == WithStatus(old(rows), username, Archived)
    {
      ok := SetPatientStatus(username, Archived);
    }

    /** `restore_patient`. */
    method RestorePatient(username: string) returns (ok: bool)
      requires Valid()
      modifies this
      ensures Valid() && present == old(present) && ok == present
      ensures rows == WithStatus(old(rows), username, Active)
    {
      ok := SetPatientStatus(username, Active);
    }
  }
}
