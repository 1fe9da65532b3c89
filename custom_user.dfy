/** The custom user model and its manager: users are identified by a unique
    email, which is the username field and the user's text form. Creating a
    user demands a non-empty email, normalises it, hashes the password and
    saves the user once; creating a superuser only fills in `is_staff` and
    `is_superuser` when the caller left them out. */
module CustomUser {
  import opened Http

  const UsernameField: string := "email"
  const RequiredFields: seq<string> := []
  const MissingEmail: string := "The Email field must be set"

  /** The keyword arguments a caller may pass; `None` means not passed. */
  datatype ExtraFields = ExtraFields(
    isStaff: Option<bool>,
    isSuperuser: Option<bool>,
    isActive: Option<bool>,
    firstName: Option<string>,
    lastName: Option<string>,
    address: Option<string>)

  /** A stored user. `password` is what `set_password` stored. */
  datatype User = User(
    email: string,
    password: string,
    firstName: string,
    lastName: string,
    address: string,
    isActive: bool,
    isStaff: bool,
    isSuperuser: bool,
    dateJoined: int)

  datatype UserError = ValueError(message: string) | IntegrityError

  function OrDefault<T>(o: Option<T>, default: T): T
  {
    if o.Some? then o.value else default
  }

  /** `self.model(email=email, **extra)` followed by `set_password`: the
      field defaults apply to whatever the caller did not pass (`is_active`
      true, `is_staff` and `is_superuser` false, blank names and address,
      joined now). */
  function BuildUser(email: string, password: Option<string>, extra: ExtraFields,
                     hash: Option<string> -> string, now: int): (u: User)
    ensures u.email == email && u.password == hash(password) && u.dateJoined == now
    ensures extra.isActive.None? ==> u.isActive
    ensures extra.isStaff.None? ==> !u.isStaff
    ensures extra.isSuperuser.None? ==> !u.isSuperuser
    ensures extra.isStaff.Some? ==> u.isStaff == extra.isStaff.value
    ensures extra.isSuperuser.Some? ==> u.isSuperuser == extra.isSuperuser.value
    ensures extra.isActive.Some? ==> u.isActive == extra.isActive.value
  {
    User(email, hash(password),
         OrDefault(extra.firstName, ""), OrDefault(extra.lastName, ""), OrDefault(extra.address, ""),
         OrDefault(extra.isActive, true), OrDefault(extra.isStaff, false), OrDefault(extra.isSuperuser, false),
         now)
  }

  /** The two `setdefault` calls of `create_superuser`. */
  function WithSuperuserDefaults(extra: ExtraFields): (r: ExtraFields)
    ensures r.isStaff == (if extra.isStaff.None? then Some(true) else extra.isStaff)
    ensures r.isSuperuser == (if extra.isSuperuser.None? then Some(true) else extra.isSuperuser)
    ensures r.(isStaff := extra.isStaff, isSuperuser := extra.isSuperuser) == extra
  {
    extra.(isStaff := Some(OrDefault(extra.isStaff, true)),
           isSuperuser := Some(OrDefault(extra.isSuperuser, true)))
  }

  /** `__str__` */
  function UserStr(u: User): (s: string)
    ensures s == u.email
  {
    u.email
  }

  /** The email column is unique. */
  ghost predicate UniqueEmails(users: map<int, User>)
  {
    forall i, j :: i in users && j in users && i != j ==> users[i].email != users[j].email
  }

  predicate EmailTaken(users: map<int, User>, email: string)
  {
    exists id :: id in users && users[id].email == email
  }

  class UserTable {
    var users: map<int, User>
    var nextId: int

    ghost predicate Valid()
      reads this
    {
      UniqueEmails(users) && forall id :: id in users ==> id < nextId
    }

    constructor ()
      ensures users == map[] && Valid()
    {
      users := map[];
      nextId := 1;
    }

    /** The INSERT of `save`, refused when the email is already stored. */
    method Insert(u: User) returns (result: Result<int, UserError>)
      requires Valid()
      modifies this
      ensures Valid()
      ensures EmailTaken(old(users), u.email) ==> result == Err(IntegrityError) && users == old(users)
      ensures !EmailTaken(old(users), u.email) ==> result.Ok? && result.value !in old(users) && users == old(users)[result.value := u]
    {
      if exists id :: id in users && users[id].email == u.email {
        return Err(IntegrityError);
      }
      var id := nextId;
      users := users[id := u];
      nextId := nextId + 1;
      result := Ok(id);
    }
  }

  /** `CustomUserManager` over its table; `normalizeEmail` and `hash` are the
      framework's `normalize_email` and password hasher. */
  class CustomUserManager {
    const table: UserTable
    const normalizeEmail: string -> string
    const hash: Option<string> -> string

    constructor (table: UserTable, normalizeEmail: string -> string, hash: Option<string> -> string)
      ensures this.table == table && this.normalizeEmail == normalizeEmail && this.hash == hash
    {
      this.table := table;
      this.normalizeEmail := normalizeEmail;
      this.hash := hash;
    }

    /** `create_user`: the missing-email error saves nothing; otherwise the
        built user is saved once under a new id (or refused if its email is
        taken) and returned. */
    method CreateUser(email: Option<string>, password: Option<string>, extra: ExtraFields, now: int)
      returns (result: Result<User, UserError>)
      requires table.Valid()
      modifies table
      ensures table.Valid()
      ensures !Truthy(email) ==> result == Err(ValueError(MissingEmail)) && table.users == old(table.users)
      ensures Truthy(email) ==>
        var u := BuildUser(normalizeEmail(email.value), password, extra, hash, now);
        && (EmailTaken(old(table.users), u.email) ==> result == Err(IntegrityError) && table.users == old(table.users))
        && (!EmailTaken(old(table.users), u.email) ==>
              result == Ok(u)
              && exists id :: id !in old(table.users) && table.users == old(table.users)[id := u])
    {
      if email.None? || email.value == "" {
        return Err(ValueError("The Email field must be set"));
      }
      var normalized := normalizeEmail(email.value);
      var user := BuildUser(normalized, password, extra, hash, now);
      var saved := table.Insert(user);
      if saved.Err? {
        return Err(saved.error);
      }
      ghost var id := saved.value;
      assert id !in old(table.users) && table.users == old(table.users)[id := user];
      result := Ok(user);
    }

    /** `create_superuser`: the defaults filled in, then `create_user`. */
    method CreateSuperuser(email: Option<string>, password: Option<string>, extra: ExtraFields, now: int)
      returns (result: Result<User, UserError>)
      requires table.Valid()
      modifies table
      ensures table.Valid()
      ensures !Truthy(email) ==> result == Err(ValueError(MissingEmail)) && table.users == old(table.users)
      ensures Truthy(email) ==>
        var u := BuildUser(normalizeEmail(email.value), password, WithSuperuserDefaults(extra), hash, now);
        && (EmailTaken(old(table.users), u.email) ==> result == Err(IntegrityError) && table.users == old(table.users))
        && (!EmailTaken(old(table.users), u.email) ==>
              result == Ok(u)
              && exists id :: id !in old(table.users) && table.users == old(table.users)[id := u])
    {
      var fields := extra;
      fields := fields.(isStaff := Some(OrDefault(fields.isStaff, true)));
      fields := fields.(isSuperuser := Some(OrDefault(fields.isSuperuser, true)));
      result := CreateUser(email, password, fields, now);
    }
  }

  /** A superuser is staff and superuser unless the caller explicitly said
      otherwise; every other field is what `create_user` alone would give. */
  lemma SuperuserFlags(email: string, password: Option<string>, extra: ExtraFields, hash: Option<string> -> string, now: int)
    ensures var u := BuildUser(email, password, WithSuperuserDefaults(extra), hash, now);
      && (u.isStaff <==> extra.isStaff != Some(false))
      && (u.isSuperuser <==> extra.isSuperuser != Some(false))
      && u.(isStaff := false, isSuperuser := false) == BuildUser(email, password, extra, hash, now).(isStaff := false, isSuperuser := false)
  {
  }

  /** Filling in the superuser defaults twice is filling them in once, and
      explicit caller values survive. */
  lemma SuperuserDefaultsKeepExplicit(extra: ExtraFields)
    ensures WithSuperuserDefaults(WithSuperuserDefaults(extra)) == WithSuperuserDefaults(extra)
    ensures extra.isStaff.Some? ==> WithSuperuserDefaults(extra).isStaff == extra.isStaff
    ensures extra.isSuperuser.Some? ==> WithSuperuserDefaults(extra).isSuperuser == extra.isSuperuser
  {
  }

  /** A plain user gets the model defaults: active, neither staff nor
      superuser, and shows up as its normalised email. */
  lemma RegularUserDefaults(email: string, password: Option<string>, hash: Option<string> -> string, now: int)
    ensures var u := BuildUser(email, password, ExtraFields(None, None, None, None, None, None), hash, now);
      u.isActive && !u.isStaff && !u.isSuperuser && UserStr(u) == email
      && u.firstName == "" && u.lastName == "" && u.address == ""
  {
  }
}
