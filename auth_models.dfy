/**
 * The custom user of the auth app: the email address is the unique login name,
 * and the manager normalises it and checks the flags a superuser must carry.
 */
module AuthModels {
  import opened Wrappers
  import opened Text
  import Paths

  /** A stored password: hashing is outside the model, so a hash records the raw password it was made from. */
  datatype Password = Unusable | Hashed(raw: string)

  datatype User = User(
    id: int,
    email: string,
    password: Password,
    isStaff: bool,
    isSuperuser: bool,
    isActive: bool,
    dateJoined: int,
    lastLogin: Option<int>)

  /** `str(user)`: the email address. */
  function Str(u: User): (s: string)
    ensures s == u.email
  {
    u.email
  }

  /** The boolean fields a caller may pass through `**extra_fields`. */
  datatype Flag = IsStaff | IsSuperuser | IsActive

  /** A Python value passed for a flag: a bool, or any other object with its truthiness. */
  datatype PyValue = PyBool(b: bool) | PyOther(truthy: bool)

  /** `value is True`. */
  predicate IsTrue(v: PyValue) {
    v == PyBool(true)
  }

  /** The flag a user is built with, stored by its truthiness, or the field's default. */
  function FlagValue(extra: map<Flag, PyValue>, f: Flag, default: bool): (b: bool)
    ensures f !in extra ==> b == default
    ensures f in extra && extra[f].PyBool? ==> b == extra[f].b
  {
    if f !in extra then default
    else match extra[f]
      case PyBool(b) => b
      case PyOther(t) => t
  }

  datatype UserError = ValueError(message: string) | IntegrityError

  const EmailRequired: string := "The e-mail address must be set."
  const StaffRequired: string := "A superuser must be a staff"
  const SuperuserRequired: string := "A superuser must have is_superuser"

  // ---------------------------------------------------------------------------
  // `BaseUserManager.normalize_email`

  /**
   * The address with the part after its last "@" lower-cased and the
   * surrounding whitespace removed; an address without "@" is kept exactly
   * as given, whitespace included.
   */
  function NormalizeEmail(email: string): (r: string)
    ensures Paths.LastIndex(Strip(email), '@') == -1 ==> r == email
  {
    var s := Strip(email);
    var at := Paths.LastIndex(s, '@');
    if at == -1 then email
    else s[..at] + "@" + LowerString(s[at + 1..])
  }

  /** A string that starts and ends with a non-space character is its own strip. */
  lemma StripTrimmed(s: string)
    requires s == [] || (!IsSpace(s[0]) && !IsSpace(s[|s| - 1]))
    ensures Strip(s) == s
  {
    assert LStrip(s) == s;
  }

  /** The last occurrence of `c` is the one after which no `c` follows. */
  lemma LastIndexIs(s: string, c: char, i: int)
    requires 0 <= i < |s| && s[i] == c
    requires forall j | i < j < |s| :: s[j] != c
    ensures Paths.LastIndex(s, c) == i
  {
  }

  /** Lower-casing never produces a space from a character that is not one. */
  lemma LowerKeepsNonSpace(c: char)
    requires !IsSpace(c)
    ensures !IsSpace(Lower(c))
  {
  }

  /**
   * On an address without surrounding whitespace whose last "@" is at `at`,
   * the local part before it is kept and the domain after it lower-cased.
   */
  lemma NormalizeAt(e: string, at: int)
    requires 0 <= at < |e| && e[at] == '@' && forall j | at < j < |e| :: e[j] != '@'
    requires !IsSpace(e[0]) && !IsSpace(e[|e| - 1])
    ensures NormalizeEmail(e) == e[..at] + "@" + LowerString(e[at + 1..])
  {
    StripTrimmed(e);
    LastIndexIs(e, '@', at);
  }

  /** In `local + "@" + domain` with no "@" in the domain, the last "@" is the one joining the two. */
  lemma JoinedAt(local: string, domain: string)
    requires forall j | 0 <= j < |domain| :: domain[j] != '@'
    ensures var r := local + "@" + domain;
      && Paths.LastIndex(r, '@') == |local|
      && r[..|local|] == local && r[|local| + 1..] == domain
  {
    var r := local + "@" + domain;
    assert forall j | |local| < j < |r| :: r[j] == domain[j - |local| - 1];
    LastIndexIs(r, '@', |local|);
    assert r[..|local|] == local;
    assert r[|local| + 1..] == domain;
  }

  /** `local + "@" + domain` is its own strip when neither end is whitespace. */
  lemma JoinedTrimmed(local: string, domain: string)
    requires local == [] || !IsSpace(local[0])
    requires domain == [] || !IsSpace(domain[|domain| - 1])
    ensures Strip(local + "@" + domain) == local + "@" + domain
  {
    var r := local + "@" + domain;
    assert r[0] == if local == [] then '@' else local[0];
    assert r[|r| - 1] == if domain == [] then '@' else domain[|domain| - 1];
    StripTrimmed(r);
  }

  /** Text without upper-case letters is its own lower-casing. */
  lemma LowerOfLowerCase(s: string)
    requires forall i | 0 <= i < |s| :: !IsUpper(s[i])
    ensures LowerString(s) == s
  {
  }

  /**
   * A normalised address with an "@" joins a local part that does not start
   * with whitespace to a lower-case domain without "@" that does not end
   * with whitespace.
   */
  lemma NormalizedShape(email: string)
    requires Paths.LastIndex(Strip(email), '@') >= 0
    ensures var s := Strip(email);
      var at := Paths.LastIndex(s, '@');
      var local, domain := s[..at], LowerString(s[at + 1..]);
      && NormalizeEmail(email) == local + "@" + domain
      && (local == [] || !IsSpace(local[0]))
      && (domain == [] || !IsSpace(domain[|domain| - 1]))
      && forall j | 0 <= j < |domain| :: domain[j] != '@' && !IsUpper(domain[j])
  {
    var s := Strip(email);
    StrippedParts(s, Paths.LastIndex(s, '@'));
  }

  /** The parts of a string without surrounding whitespace around its last "@" at `at`. */
  lemma StrippedParts(s: string, at: int)
    requires 0 <= at < |s| && forall j | at < j < |s| :: s[j] != '@'
    requires !IsSpace(s[0]) && !IsSpace(s[|s| - 1])
    ensures var local, domain := s[..at], LowerString(s[at + 1..]);
      && (local == [] || !IsSpace(local[0]))
      && (domain == [] || !IsSpace(domain[|domain| - 1]))
      && forall j | 0 <= j < |domain| :: domain[j] != '@' && !IsUpper(domain[j])
  {
    var tail := s[at + 1..];
    assert tail != [] ==> tail[|tail| - 1] == s[|s| - 1];
    assert forall j | 0 <= j < |tail| :: tail[j] == s[at + 1 + j];
    LowerDomain(tail);
  }

  /** Lower-casing a domain without "@" that does not end in whitespace keeps both facts and leaves no upper case. */
  lemma LowerDomain(tail: string)
    requires forall j | 0 <= j < |tail| :: tail[j] != '@'
    requires tail == [] || !IsSpace(tail[|tail| - 1])
    ensures var domain := LowerString(tail);
      && (domain == [] || !IsSpace(domain[|domain| - 1]))
      && forall j | 0 <= j < |domain| :: domain[j] != '@' && !IsUpper(domain[j])
  {
    if tail != [] {
      LowerKeepsNonSpace(tail[|tail| - 1]);
    }
  }

  /** An address already in that shape is left as it is. */
  lemma NormalizedIsFixed(local: string, domain: string)
    requires forall j | 0 <= j < |domain| :: domain[j] != '@' && !IsUpper(domain[j])
    requires local == [] || !IsSpace(local[0])
    requires domain == [] || !IsSpace(domain[|domain| - 1])
    ensures NormalizeEmail(local + "@" + domain) == local + "@" + domain
  {
    JoinedTrimmed(local, domain);
    JoinedAt(local, domain);
    LowerOfLowerCase(domain);
  }

  /**
   * Normalising an address that has an "@" is idempotent: the stored address
   * normalises to itself.
   */
  lemma NormalizeEmailIdempotent(email: string)
    requires Paths.LastIndex(Strip(email), '@') >= 0
    ensures NormalizeEmail(NormalizeEmail(email)) == NormalizeEmail(email)
  {
    NormalizedShape(email);
    var s := Strip(email);
    var at := Paths.LastIndex(s, '@');
    NormalizedIsFixed(s[..at], LowerString(s[at + 1..]));
  }

  /** The domain of the example below, lower-cased. */
  lemma ExampleDomain(domain: string)
    requires domain == "Example.COM"
    ensures LowerString(domain) == "example.com"
  {
    var l := LowerString(domain);
    assert l[0] == Lower('E') == 'e';
    assert l[8] == Lower('C') == 'c';
    assert l[9] == Lower('O') == 'o';
    assert l[10] == Lower('M') == 'm';
  }

  /** The address of the example below: its only "@" at index 4, no surrounding whitespace. */
  lemma ExampleAddress(email: string)
    requires email == "Test@Example.COM"
    ensures email[4] == '@' && (forall j | 4 < j < |email| :: email[j] != '@')
    ensures !IsSpace(email[0]) && !IsSpace(email[|email| - 1])
    ensures email[..4] == "Test" && email[5..] == "Example.COM"
  {
  }

  /** The example of the user tests: the local part keeps its case, the domain is lower-cased. */
  lemma NormalizeEmailExample(email: string)
    requires email == "Test@Example.COM"
    ensures NormalizeEmail(email) == "Test@example.com"
  {
    ExampleAddress(email);
    NormalizeAt(email, 4);
    ExampleDomain(email[5..]);
  }

  // ---------------------------------------------------------------------------
  // The manager's rules, as functions of the table before the call

  /** The user `self.model(email=email, **extra_fields)` builds once `set_password` has run. */
  function NewUser(id: int, email: string, password: Option<string>, extra: map<Flag, PyValue>, now: int): (u: User)
    ensures u.id == id && u.email == email && u.dateJoined == now && u.lastLogin == None
    ensures u.password == (if password.Some? then Hashed(password.value) else Unusable)
    ensures u.isStaff == FlagValue(extra, IsStaff, false)
    ensures u.isSuperuser == FlagValue(extra, IsSuperuser, false)
    ensures u.isActive == FlagValue(extra, IsActive, true)
  {
    User(id, email,
         if password.Some? then Hashed(password.value) else Unusable,
         FlagValue(extra, IsStaff, false),
         FlagValue(extra, IsSuperuser, false),
         FlagValue(extra, IsActive, true),
         now, None)
  }

  /** Some stored user already has this address (the column is unique). */
  predicate EmailTaken(rows: map<int, User>, email: string) {
    exists id | id in rows :: rows[id].email == email
  }

  /** What a call leaves behind: its result and the table afterwards. */
  datatype Outcome = Outcome(result: Result<User, UserError>, rows: map<int, User>, nextId: int)

  /**
   * `create_user`: an empty address is refused before anything is built; the
   * normalised address must not be taken; otherwise the new user is stored
   * under the next key.
   */
  function CreateUserOutcome(rows: map<int, User>, nextId: int, email: string, password: Option<string>,
                             extra: map<Flag, PyValue>, now: int): (o: Outcome)
    ensures o.result == Failure(ValueError(EmailRequired)) <==> email == ""
    ensures o.result.Failure? ==> o.rows == rows && o.nextId == nextId
    ensures o.result == Failure(IntegrityError) <==> email != "" && EmailTaken(rows, NormalizeEmail(email))
    ensures o.result.Success? ==>
      && o.result.value == NewUser(nextId, NormalizeEmail(email), password, extra, now)
      && o.rows == rows[nextId := o.result.value] && o.nextId == nextId + 1
  {
    if email == "" then Outcome(Failure(ValueError(EmailRequired)), rows, nextId)
    else
      var normalized := NormalizeEmail(email);
      if EmailTaken(rows, normalized) then Outcome(Failure(IntegrityError), rows, nextId)
      else
        var u := NewUser(nextId, normalized, password, extra, now);
        Outcome(Success(u), rows[nextId := u], nextId + 1)
  }

  /** `extra_fields` after the two `setdefault` calls. */
  function SuperuserExtra(extra: map<Flag, PyValue>): (ex: map<Flag, PyValue>)
    ensures IsStaff in ex && IsSuperuser in ex
    ensures ex[IsStaff] == (if IsStaff in extra then extra[IsStaff] else PyBool(true))
    ensures ex[IsSuperuser] == (if IsSuperuser in extra then extra[IsSuperuser] else PyBool(true))
    ensures forall f | f in extra :: f in ex && ex[f] == extra[f]
  {
    var withStaff := if IsStaff in extra then extra else extra[IsStaff := PyBool(true)];
    if IsSuperuser in withStaff then withStaff else withStaff[IsSuperuser := PyBool(true)]
  }

  /**
   * `create_superuser`: both flags default to True; a flag given as anything
   * but True is refused; otherwise `create_user` with those flags.
   */
  function CreateSuperuserOutcome(rows: map<int, User>, nextId: int, email: string, password: Option<string>,
                                  extra: map<Flag, PyValue>, now: int): (o: Outcome)
    ensures IsStaff in extra && !IsTrue(extra[IsStaff]) ==>
      o == Outcome(Failure(ValueError(StaffRequired)), rows, nextId)
    ensures (IsStaff !in extra || IsTrue(extra[IsStaff])) && IsSuperuser in extra && !IsTrue(extra[IsSuperuser]) ==>
      o == Outcome(Failure(ValueError(SuperuserRequired)), rows, nextId)
    ensures (IsStaff !in extra || IsTrue(extra[IsStaff])) && (IsSuperuser !in extra || IsTrue(extra[IsSuperuser])) ==>
      o == CreateUserOutcome(rows, nextId, email, password, SuperuserExtra(extra), now)
  {
    var ex := SuperuserExtra(extra);
    if !IsTrue(ex[IsStaff]) then Outcome(Failure(ValueError(StaffRequired)), rows, nextId)
    else if !IsTrue(ex[IsSuperuser]) then Outcome(Failure(ValueError(SuperuserRequired)), rows, nextId)
    else CreateUserOutcome(rows, nextId, email, password, ex, now)
  }

  /**
   * Every superuser the manager creates is staff and superuser, and the
   * empty-address rule applies to it as to any user.
   */
  lemma SuperuserFlags(rows: map<int, User>, nextId: int, email: string, password: Option<string>,
                       extra: map<Flag, PyValue>, now: int)
    ensures var o := CreateSuperuserOutcome(rows, nextId, email, password, extra, now);
      && (o.result.Success? ==> o.result.value.isStaff && o.result.value.isSuperuser)
      && (email == "" ==> o.result.Failure? && o.rows == rows)
      && (extra == map[] && email != "" && !EmailTaken(rows, NormalizeEmail(email)) ==>
            o.result.Success? && o.result.value.isActive)
  {
  }

  /** A created user's `str` is the normalised address it was created with. */
  lemma CreatedUserStr(rows: map<int, User>, nextId: int, email: string, password: Option<string>,
                       extra: map<Flag, PyValue>, now: int)
    ensures var o := CreateUserOutcome(rows, nextId, email, password, extra, now);
      o.result.Success? ==> Str(o.result.value) == NormalizeEmail(email) && Str(o.result.value) != ""
  {
    var o := CreateUserOutcome(rows, nextId, email, password, extra, now);
    if o.result.Success? {
      var s := Strip(email);
      if Paths.LastIndex(s, '@') >= 0 {
        assert NormalizeEmail(email)[Paths.LastIndex(s, '@')] == '@';
      }
    }
  }

  // ---------------------------------------------------------------------------
  // The table

  /** The user table: unique keys below `nextId` and unique addresses. */
  class UserTable {
    var rows: map<int, User>
    var nextId: int

    ghost predicate Valid()
      reads this
    {
      && (forall id | id in rows :: rows[id].id == id && id < nextId)
      && (forall a, b | a in rows && b in rows && a != b :: rows[a].email != rows[b].email)
    }

    constructor ()
      ensures Valid() && rows == map[] && nextId == 1
    {
      rows := map[];
      nextId := 1;
    }

    /** `CustomUserManager.create_user(email, password, **extra_fields)`. */
    method CreateUser(email: string, password: Option<string>, extra: map<Flag, PyValue>, now: int)
      returns (r: Result<User, UserError>)
      requires Valid()
      modifies this
      ensures Valid()
      ensures Outcome(r, rows, nextId) == CreateUserOutcome(old(rows), old(nextId), email, password, extra, now)
    {
      if email == "" {
        return Failure(ValueError(EmailRequired));
      }
      var normalized := NormalizeEmail(email);
      var user := NewUser(nextId, normalized, password, extra, now);
      if exists id | id in rows :: rows[id].email == normalized {
        return Failure(IntegrityError);
      }
      rows := rows[nextId := user];
      nextId := nextId + 1;
      r := Success(user);
    }

    /** `CustomUserManager.create_superuser(email, password, **extra_fields)`. */
    method CreateSuperuser(email: string, password: Option<string>, extra: map<Flag, PyValue>, now: int)
      returns (r: Result<User, UserError>)
      requires Valid()
      modifies this
      ensures Valid()
      ensures Outcome(r, rows, nextId) == CreateSuperuserOutcome(old(rows), old(nextId), email, password, extra, now)
    {
      var fields := extra;
      if IsStaff !in fields {
        fields := fields[IsStaff := PyBool(true)];
      }
      if IsSuperuser !in fields {
        fields := fields[IsSuperuser := PyBool(true)];
      }
      assert fields == SuperuserExtra(extra);
      if !IsTrue(fields[IsStaff]) {
        return Failure(ValueError(StaffRequired));
      }
      if !IsTrue(fields[IsSuperuser]) {
        return Failure(ValueError(SuperuserRequired));
      }
      r := CreateUser(email, password, fields, now);
    }

    /** `user.is_active = True; user.save(update_fields=["is_active"])`: only that column changes. */
    method Activate(pk: int)
      requires Valid() && pk in rows
      modifies this
      ensures Valid()
      ensures rows == old(rows)[pk := old(rows)[pk].(isActive := true)] && nextId == old(nextId)
    {
      rows := rows[pk := rows[pk].(isActive := true)];
    }
  }
}
