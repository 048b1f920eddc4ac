/** routes/auth.js: registration (an ordered chain of field checks, the
    duplicate-email rule, then a profile row and an Auth row inserted in that
    order) and login (pattern checks, the first Auth row with that email and
    role, the password comparison, then the profile the row points at). */
module Auth {
  import opened Text
  import opened Http
  import opened Tables

  // ---------------------------------------------------------------- the email pattern

  /** `[^\s@]`: a character of any part of an address in `/^[^\s@]+@[^\s@]+\.[^\s@]+$/`. */
  predicate PlainChar(c: char) {
    !IsSpace(c) && c != '@'
  }

  predicate AllPlain(s: string) {
    forall i :: 0 <= i < |s| ==> PlainChar(s[i])
  }

  /** `/^[^\s@]+@[^\s@]+\.[^\s@]+$/.test(s)`, read position by position: an '@'
      after a non-empty local part, then a '.' with at least one character on
      each side, and no whitespace and no other '@' anywhere. */
  predicate IsEmailShape(s: string) {
    exists at | 0 < at < |s| ::
      && s[at] == '@'
      && (forall i | 0 <= i < |s| && i != at :: PlainChar(s[i]))
      && (exists dot | at + 1 < dot < |s| - 1 :: s[dot] == '.')
  }

  /** The pattern's own reading: `s` is local + "@" + host + "." + tail, three
      non-empty runs of `[^\s@]`. */
  ghost predicate EmailParts(s: string, local: string, host: string, tail: string) {
    && s == local + "@" + host + "." + tail
    && local != [] && host != [] && tail != []
    && AllPlain(local) && AllPlain(host) && AllPlain(tail)
  }

  /** Cutting at an '@' and a later '.' gives the pattern's three runs. */
  lemma RunsAround(s: string, at: nat, dot: nat)
    requires 0 < at && at + 1 < dot < |s| - 1 && s[at] == '@' && s[dot] == '.'
    requires forall i | 0 <= i < |s| && i != at :: PlainChar(s[i])
    ensures EmailParts(s, s[..at], s[at + 1..dot], s[dot + 1..])
  {
    var local, host, tail := s[..at], s[at + 1..dot], s[dot + 1..];
    var t := local + "@" + host + "." + tail;
    assert |t| == |s|;
    forall k | 0 <= k < |s| ensures t[k] == s[k] {
      if k < at {
        assert t[k] == local[k];
      } else if k == at {
        assert t[k] == '@';
      } else if k < dot {
        assert t[k] == host[k - at - 1];
      } else if k == dot {
        assert t[k] == '.';
      } else {
        assert t[k] == tail[k - dot - 1];
      }
    }
    assert t == s;
    forall i | 0 <= i < |host| ensures PlainChar(host[i]) {
      assert host[i] == s[at + 1 + i];
    }
    forall i | 0 <= i < |tail| ensures PlainChar(tail[i]) {
      assert tail[i] == s[dot + 1 + i];
    }
  }

  /** A string that passes the position-wise check splits into the pattern's three runs. */
  lemma ShapeHasParts(s: string) returns (local: string, host: string, tail: string)
    requires IsEmailShape(s)
    ensures EmailParts(s, local, host, tail)
  {
    var at :| 0 < at < |s| && s[at] == '@'
      && (forall i | 0 <= i < |s| && i != at :: PlainChar(s[i]))
      && (exists dot | at + 1 < dot < |s| - 1 :: s[dot] == '.');
    var dot :| at + 1 < dot < |s| - 1 && s[dot] == '.';
    RunsAround(s, at, dot);
    local, host, tail := s[..at], s[at + 1..dot], s[dot + 1..];
  }

  /** Three runs of the pattern, joined by '@' and '.', pass the position-wise check. */
  lemma PartsHaveShape(s: string, local: string, host: string, tail: string)
    requires EmailParts(s, local, host, tail)
    ensures IsEmailShape(s)
  {
    var at, dot := |local|, |local| + 1 + |host|;
    assert s[..at] == local && s[at + 1..dot] == host && s[dot + 1..] == tail;
    assert s[at] == '@' && s[dot] == '.';
    forall i | 0 <= i < |s| && i != at
      ensures PlainChar(s[i])
    {
      if i < at {
        assert s[i] == s[..at][i];
      } else if i < dot {
        assert s[i] == s[at + 1..dot][i - at - 1];
      } else if dot < i {
        assert s[i] == s[dot + 1..][i - dot - 1];
      }
    }
  }

  /** The position-wise check accepts exactly the strings the regular expression matches. */
  lemma EmailShapeIsPattern(s: string)
    ensures IsEmailShape(s) <==> exists local, host, tail :: EmailParts(s, local, host, tail)
  {
    if IsEmailShape(s) {
      var local, host, tail := ShapeHasParts(s);
    }
    if exists local, host, tail :: EmailParts(s, local, host, tail) {
      var local, host, tail :| EmailParts(s, local, host, tail);
      PartsHaveShape(s, local, host, tail);
    }
  }

  /** An address that passes has exactly one '@'. */
  lemma EmailShapeHasOneAt(s: string, i: int, j: int)
    requires IsEmailShape(s)
    requires 0 <= i < |s| && 0 <= j < |s| && s[i] == '@' && s[j] == '@'
    ensures i == j
  {
  }

  /** An absent field reaches the pattern as the text "undefined", which never matches. */
  lemma UndefinedIsNoEmail()
    ensures !IsEmailShape(JsString(None))
  {
    var s := JsString(None);
    assert s == "undefined";
    forall at | 0 < at < |s| ensures s[at] != '@' {
    }
  }

  // ---------------------------------------------------------------- register

  /** The body of POST /auth/register. */
  datatype RegisterForm = RegisterForm(
    email: Option<string>, password: Option<string>, role: Option<string>, name: Option<string>,
    description: Option<string>, address: Option<string>, phoneNumber: Option<string>,
    confirmPassword: Option<string>)

  /** `['supplier', 'umkm'].includes(role)`, and which one. */
  function RoleOf(role: Option<string>): Option<Role> {
    if role == Some("supplier") then Some(SupplierRole)
    else if role == Some("umkm") then Some(UmkmRole)
    else None
  }

  /** `!(!x || x.trim().length === 0)`. */
  predicate NotBlankField(f: Option<string>) {
    Truthy(f) && Trim(f.value) != []
  }

  /** The register handler's checks, in the order it runs them. Reading
      `.length` of an absent password or phone number throws. */
  function RegisterChecks(f: RegisterForm): seq<Step> {
    [ Step(IsEmailShape(JsString(f.email)), Reject(400, "Invalid email format")),
      Step(f.password.Some?, Throw),
      Step(f.password.None? || |f.password.value| >= 8, Reject(400, "Password must be at least 8 characters")),
      Step(f.password == f.confirmPassword, Reject(400, "Passwords do not match")),
      Step(f.phoneNumber.Some?, Throw),
      Step(f.phoneNumber.None? || 12 <= |f.phoneNumber.value| <= 20,
           Reject(400, "Phone number must be between 12 and 20 characters")),
      Step(RoleOf(f.role).Some?, Reject(400, "Invalid role")),
      Step(NotBlankField(f.name), Reject(400, "Name cannot be empty")),
      Step(NotBlankField(f.description), Reject(400, "Description cannot be empty")),
      Step(NotBlankField(f.address), Reject(400, "Address cannot be empty")) ]
  }

  /** What a registration must carry to get past the checks, stated without the
      checks themselves. */
  ghost predicate RegisterAccepted(f: RegisterForm) {
    && f.email.Some? && (exists local, host, tail :: EmailParts(f.email.value, local, host, tail))
    && f.password.Some? && |f.password.value| >= 8 && f.confirmPassword == f.password
    && f.phoneNumber.Some? && 12 <= |f.phoneNumber.value| <= 20
    && RoleOf(f.role).Some?
    && f.name.Some? && !IsBlank(f.name.value)
    && f.description.Some? && !IsBlank(f.description.value)
    && f.address.Some? && !IsBlank(f.address.value)
  }

  /** The chain lets a registration through exactly when it is well formed. */
  lemma RegisterChecksPass(f: RegisterForm)
    ensures FirstHalt(RegisterChecks(f)) == None <==> RegisterAccepted(f)
  {
    var steps := RegisterChecks(f);
    FirstHaltIsEarliestFailure(steps);
    UndefinedIsNoEmail();
    if f.email.Some? {
      EmailShapeIsPattern(f.email.value);
    }
    if f.name.Some? {
      TrimmedEmptyIffBlank(f.name.value);
    }
    if f.description.Some? {
      TrimmedEmptyIffBlank(f.description.value);
    }
    if f.address.Some? {
      TrimmedEmptyIffBlank(f.address.value);
    }
    if RegisterAccepted(f) {
      assert f.name.value != [] && f.description.value != [] && f.address.value != [];
      forall i | 0 <= i < |steps| ensures steps[i].passes {
      }
    }
    if FirstHalt(steps) == None {
      assert forall i :: 0 <= i < |steps| ==> steps[i].passes;
      assert steps[0].passes && steps[1].passes && steps[2].passes && steps[3].passes && steps[4].passes;
      assert steps[5].passes && steps[6].passes && steps[7].passes && steps[8].passes && steps[9].passes;
    }
  }

  /** `SELECT * FROM Auth WHERE email = ?` finds a row. */
  ghost predicate EmailTaken(auths: map<nat, AuthRow>, email: string) {
    exists id :: id in auths && auths[id].email == email
  }

  function EmailIs(email: string): AuthRow -> bool {
    (row: AuthRow) => row.email == email
  }

  /** The two inserts of a registration: the profile row in the table the role
      names, then the Auth row whose user_id is that row's new id. */
  method InsertAccount(db: Database, role: Role, name: string, description: string, address: string,
                       phone: string, email: string, hashed: string)
    requires db.Valid()
    modifies db`suppliers, db`nextSupplier, db`umkms, db`nextUmkm, db`auths, db`nextAuth
    ensures db.Valid()
    ensures role == SupplierRole ==>
      && db.suppliers == old(db.suppliers)[old(db.nextSupplier) := SupplierRow(name, description, address, phone)]
      && db.nextSupplier == old(db.nextSupplier) + 1
      && db.umkms == old(db.umkms) && db.nextUmkm == old(db.nextUmkm)
      && db.auths == old(db.auths)[old(db.nextAuth) := AuthRow(email, hashed, SupplierRole, old(db.nextSupplier))]
    ensures role == UmkmRole ==>
      && db.umkms == old(db.umkms)[old(db.nextUmkm) := UmkmRow(name, description, address, phone)]
      && db.nextUmkm == old(db.nextUmkm) + 1
      && db.suppliers == old(db.suppliers) && db.nextSupplier == old(db.nextSupplier)
      && db.auths == old(db.auths)[old(db.nextAuth) := AuthRow(email, hashed, UmkmRole, old(db.nextUmkm))]
    ensures db.nextAuth == old(db.nextAuth) + 1
  {
    var userId: nat;
    if role == SupplierRole {
      userId := db.nextSupplier;
      db.suppliers := db.suppliers[userId := SupplierRow(name, description, address, phone)];
      db.nextSupplier := userId + 1;
    } else {
      userId := db.nextUmkm;
      db.umkms := db.umkms[userId := UmkmRow(name, description, address, phone)];
      db.nextUmkm := userId + 1;
    }
    db.auths := db.auths[db.nextAuth := AuthRow(email, hashed, role, userId)];
    db.nextAuth := db.nextAuth + 1;
  }

  /** POST /auth/register. `hashed` is what bcrypt.hash returned for the password. */
  method Register(db: Database, f: RegisterForm, hashed: string) returns (r: Response<()>)
    requires db.Valid()
    modifies db`suppliers, db`nextSupplier, db`umkms, db`nextUmkm, db`auths, db`nextAuth
    ensures db.Valid()
    ensures FirstHalt(RegisterChecks(f)).Some? ==> r == Respond(FirstHalt(RegisterChecks(f)).value)
    ensures RegisterAccepted(f) && EmailTaken(old(db.auths), f.email.value) ==> r == Fail(400, "Email already exists")
    ensures r.Ok? <==> RegisterAccepted(f) && !EmailTaken(old(db.auths), f.email.value)
    ensures !r.Ok? ==> unchanged(db)
    ensures r.Ok? ==> r.message == "User Created"
    ensures r.Ok? && f.role == Some("supplier") ==>
      && db.suppliers == old(db.suppliers)[old(db.nextSupplier) :=
           SupplierRow(f.name.value, f.description.value, f.address.value, f.phoneNumber.value)]
      && db.nextSupplier == old(db.nextSupplier) + 1
      && db.umkms == old(db.umkms) && db.nextUmkm == old(db.nextUmkm)
      && db.auths == old(db.auths)[old(db.nextAuth) :=
           AuthRow(f.email.value, hashed, SupplierRole, old(db.nextSupplier))]
      && db.nextAuth == old(db.nextAuth) + 1
    ensures r.Ok? && f.role == Some("umkm") ==>
      && db.umkms == old(db.umkms)[old(db.nextUmkm) :=
           UmkmRow(f.name.value, f.description.value, f.address.value, f.phoneNumber.value)]
      && db.nextUmkm == old(db.nextUmkm) + 1
      && db.suppliers == old(db.suppliers) && db.nextSupplier == old(db.nextSupplier)
      && db.auths == old(db.auths)[old(db.nextAuth) :=
           AuthRow(f.email.value, hashed, UmkmRole, old(db.nextUmkm))]
      && db.nextAuth == old(db.nextAuth) + 1
  {
    RegisterChecksPass(f);
    var halt := FirstHalt(RegisterChecks(f));
    if halt.Some? {
      return Respond(halt.value);
    }
    var email := f.email.value;
    var same := SelectWhere(db.auths, db.nextAuth, EmailIs(email));
    if same != [] {
      assert same[0] in same;
      return Fail(400, "Email already exists");
    }
    assert !EmailTaken(db.auths, email) by {
      forall id | id in db.auths ensures db.auths[id].email != email {
        assert id !in same;
      }
    }
    InsertAccount(db, RoleOf(f.role).value, f.name.value, f.description.value, f.address.value,
                  f.phoneNumber.value, email, hashed);
    return Ok("User Created", ());
  }

  // ---------------------------------------------------------------- login

  /** The body of POST /auth/login. */
  datatype LoginForm = LoginForm(email: Option<string>, password: Option<string>, role: Option<string>)

  /** The `result` object of a successful login and of the profile reads. */
  datatype UserView = UserView(
    userId: string, name: string, email: string, description: string, address: string, phoneNumber: string)

  datatype Session = Session(user: UserView, token: string)

  function SupplierView(id: nat, row: SupplierRow, email: string): UserView {
    UserView(FormatId("user", id), row.name, email, row.description, row.address, row.contact)
  }

  function UmkmView(id: nat, row: UmkmRow, email: string): UserView {
    UserView(FormatId("user", id), row.name, email, row.description, row.address, row.contact)
  }

  function LoginChecks(f: LoginForm): seq<Step> {
    [ Step(IsEmailShape(JsString(f.email)), Reject(400, "Invalid email format")),
      Step(RoleOf(f.role).Some?, Reject(400, "Invalid role")) ]
  }

  ghost predicate LoginAccepted(f: LoginForm) {
    f.email.Some? && IsEmailShape(f.email.value) && RoleOf(f.role).Some?
  }

  /** The login chain lets a request through exactly when its email has the
      address shape and its role is one of the two; otherwise the reply is a 400. */
  lemma LoginChecksPass(f: LoginForm)
    ensures FirstHalt(LoginChecks(f)) == None <==> LoginAccepted(f)
    ensures FirstHalt(LoginChecks(f)).Some? ==> FirstHalt(LoginChecks(f)).value.Reject?
    ensures FirstHalt(LoginChecks(f)).Some? ==> FirstHalt(LoginChecks(f)).value.status == 400
  {
    var steps := LoginChecks(f);
    UndefinedIsNoEmail();
    FirstHaltIsEarliestFailure(steps);
    if FirstHalt(steps) == None {
      assert steps[0].passes && steps[1].passes;
    }
  }

  /** `WHERE email = ? AND user_type = ?` */
  function Credential(email: string, role: Role): AuthRow -> bool {
    (row: AuthRow) => row.email == email && row.userType == role
  }

  /** The profile row an Auth row points at exists in its table. */
  ghost predicate HasProfile(db: Database, a: AuthRow)
    reads db
  {
    match a.userType
    case SupplierRole => a.userId in db.suppliers
    case UmkmRole => a.userId in db.umkms
  }

  /** The login reply built from an Auth row and the profile row it points at. */
  ghost function ProfileOf(db: Database, a: AuthRow, email: string): UserView
    reads db
    requires HasProfile(db, a)
  {
    match a.userType
    case SupplierRole => SupplierView(a.userId, db.suppliers[a.userId], email)
    case UmkmRole => UmkmView(a.userId, db.umkms[a.userId], email)
  }

  /** POST /auth/login. `passwordMatches` is bcrypt.compare; `token` is what
      jwt.sign returns for the user. A password that is absent makes
      bcrypt.compare reject, and a missing profile row makes the reply read a
      field of `undefined`: both throw. */
  method Login(db: Database, f: LoginForm, passwordMatches: (string, string) -> bool, token: string)
    returns (r: Response<Session>)
    requires db.Valid()
    ensures FirstHalt(LoginChecks(f)).Some? ==> r == Respond(FirstHalt(LoginChecks(f)).value)
    ensures r == Fail(404, "User not found") <==>
      LoginAccepted(f) && forall id :: id in db.auths ==> !Credential(f.email.value, RoleOf(f.role).value)(db.auths[id])
    ensures r == Fail(401, "Invalid password") <==>
      && LoginAccepted(f) && f.password.Some?
      && exists id :: FirstWhere(db.auths, Credential(f.email.value, RoleOf(f.role).value), id)
                   && !passwordMatches(f.password.value, db.auths[id].passwordHash)
    ensures r.Ok? <==>
      && LoginAccepted(f) && f.password.Some?
      && exists id :: FirstWhere(db.auths, Credential(f.email.value, RoleOf(f.role).value), id)
                   && passwordMatches(f.password.value, db.auths[id].passwordHash)
                   && HasProfile(db, db.auths[id])
    ensures r.Ok? ==>
      && LoginAccepted(f) && f.password.Some? && r.message == "success" && r.data.token == token
      && exists id :: FirstWhere(db.auths, Credential(f.email.value, RoleOf(f.role).value), id)
                   && passwordMatches(f.password.value, db.auths[id].passwordHash)
                   && HasProfile(db, db.auths[id])
                   && r.data.user == ProfileOf(db, db.auths[id], f.email.value)
    ensures r.Thrown? <==>
      && LoginAccepted(f)
      && exists id :: FirstWhere(db.auths, Credential(f.email.value, RoleOf(f.role).value), id)
                   && (f.password.None?
                       || (passwordMatches(f.password.value, db.auths[id].passwordHash) && !HasProfile(db, db.auths[id])))
    ensures r.Fail? ==> r.status in {400, 401, 404}
  {
    LoginChecksPass(f);
    var halt := FirstHalt(LoginChecks(f));
    if halt.Some? {
      return Respond(halt.value);
    }
    var email, role := f.email.value, RoleOf(f.role).value;
    var ids := SelectWhere(db.auths, db.nextAuth, Credential(email, role));
    if ids == [] {
      return Fail(404, "User not found");
    }
    ScanHeadIsFirst(db.auths, Credential(email, role), ids);
    assert ids[0] in ids;
    var user := db.auths[ids[0]];
    if f.password.None? {
      return Thrown;
    }
    if !passwordMatches(f.password.value, user.passwordHash) {
      return Fail(401, "Invalid password");
    }
    assert FirstWhere(db.auths, Credential(email, role), ids[0]);
    if user.userType == SupplierRole {
      if user.userId !in db.suppliers {
        return Thrown;
      }
      r := Ok("success", Session(SupplierView(user.userId, db.suppliers[user.userId], email), token));
    } else {
      if user.userId !in db.umkms {
        return Thrown;
      }
      r := Ok("success", Session(UmkmView(user.userId, db.umkms[user.userId], email), token));
    }
  }

  /** Only the smallest matching key satisfies FirstWhere, so the 401 and success
      replies of Login speak about one Auth row. */
  lemma FirstWhereUnique<T>(table: map<nat, T>, keep: T -> bool, a: nat, b: nat)
    requires FirstWhere(table, keep, a) && FirstWhere(table, keep, b)
    ensures a == b
  {
  }
}
