/** The account serializers: how users, profiles and colleges are rendered;
    the registration checks and the creation step; the old-password check;
    and the partial update of a user and its profile. */
module Serializers {
  import opened Values
  import opened Accounts

  // ---------------------------------------------------------------------------
  // Password hashing (a foreign library, passed in)
  // ---------------------------------------------------------------------------

  type Salt = nat

  /** `make_password` (`encode`) and `check_password` (`verify`). */
  datatype Hasher = Hasher(encode: (string, Salt) -> Digest, verify: (string, Digest) -> bool)

  /** The one property the model needs of the hasher: a password verifies
      against any encoding of itself. */
  ghost predicate Sound(h: Hasher) {
    forall raw, salt :: h.verify(raw, h.encode(raw, salt))
  }

  /** The user's `check_password`. */
  predicate CheckPassword(u: User, h: Hasher, raw: string) {
    h.verify(raw, u.password)
  }

  /** The user's `set_password`: only the encoding of the password is kept. */
  function SetPassword(u: User, h: Hasher, raw: string, salt: Salt): (t: User)
    ensures t.password == h.encode(raw, salt)
    ensures t == u.(password := t.password)
  {
    u.(password := h.encode(raw, salt))
  }

  /** After a password is set, that password checks. */
  lemma SetPasswordThenCheck(u: User, h: Hasher, raw: string, salt: Salt)
    requires Sound(h)
    ensures CheckPassword(SetPassword(u, h, raw, salt), h, raw)
  {
  }

  // ---------------------------------------------------------------------------
  // Rendering (the read side of the serializers)
  // ---------------------------------------------------------------------------

  const ProfileFields: set<string> := {"avatar", "bio", "total_points", "total_stars", "streak_days", "last_active"}
  const ProfileReadOnlyFields: set<string> := {"avatar", "total_points", "total_stars", "streak_days"}
  const UserFields: set<string> :=
    {"id", "email", "username", "first_name", "last_name", "mobile", "role", "is_college_student",
     "college", "college_detail", "college_name", "branch", "current_year", "semester", "cgpa",
     "roll_number", "profile", "created_at"}
  const UpdateFields: set<string> :=
    {"first_name", "last_name", "mobile", "is_college_student", "college", "college_name", "branch",
     "current_year", "semester", "cgpa", "roll_number", "bio", "avatar"}

  function IntData(o: Option<int>): Json {
    if o.Some? then JInt(o.value) else JNull
  }

  function TextData(o: Option<string>): Json {
    if o.Some? then JStr(o.value) else JNull
  }

  /** An empty file field renders as null. */
  function ImageData(f: ImageRef): Json {
    if f == "" then JNull else JStr(f)
  }

  /** The college serializer's rendering. */
  function CollegeData(id: CollegeId, c: College): Json {
    JObject(map["id" := JInt(id), "name" := JStr(c.name), "code" := JStr(c.code)])
  }

  /** The profile serializer's rendering. */
  function ProfileData(p: Profile): Json {
    JObject(map[
      "avatar" := ImageData(p.avatar),
      "bio" := JStr(p.bio),
      "total_points" := JInt(p.totalPoints),
      "total_stars" := JInt(p.totalStars),
      "streak_days" := JInt(p.streakDays),
      "last_active" := TextData(p.lastActive)])
  }

  /** The user serializer's rendering, with the profile and college looked up in the store;
      a missing related row renders as null. */
  function UserData(s: Store, u: User): Json {
    JObject(map[
      "id" := JInt(u.id),
      "email" := JStr(u.email),
      "username" := JStr(u.username),
      "first_name" := JStr(u.firstName),
      "last_name" := JStr(u.lastName),
      "mobile" := JStr(u.mobile),
      "role" := JStr(RoleName(u.role)),
      "is_college_student" := JBool(u.isCollegeStudent),
      "college" := IntData(if u.college.Some? then Some(u.college.value as int) else None),
      "college_detail" := (if u.college.Some? && u.college.value in s.colleges
                           then CollegeData(u.college.value, s.colleges[u.college.value]) else JNull),
      "college_name" := JStr(u.collegeName),
      "branch" := JStr(u.branch),
      "current_year" := IntData(u.currentYear),
      "semester" := IntData(u.semester),
      "cgpa" := TextData(u.cgpa),
      "roll_number" := JStr(u.rollNumber),
      "profile" := (if u.id in s.profiles then ProfileData(s.profiles[u.id]) else JNull),
      "created_at" := JStr(u.createdAt)])
  }

  lemma UserDataKeysWithin(s: Store, u: User)
    ensures UserData(s, u).fields.Keys <= UserFields
  {
  }

  lemma UserDataKeysCover(s: Store, u: User)
    ensures UserFields <= UserData(s, u).fields.Keys
  {
  }

  /** The rendered user has exactly the declared fields, so the password never
      leaves the server. */
  lemma UserDataShape(s: Store, u: User)
    ensures UserData(s, u).JObject? && UserData(s, u).fields.Keys == UserFields
    ensures "password" !in UserData(s, u).fields
  {
    UserDataKeysWithin(s, u);
    UserDataKeysCover(s, u);
    assert "password" !in UserFields;
  }

  /** Email, role and profile are rendered as stored. */
  lemma UserDataValues(s: Store, u: User)
    ensures UserData(s, u).fields["email"] == JStr(u.email)
    ensures UserData(s, u).fields["role"] == JStr(RoleName(u.role))
    ensures u.id in s.profiles ==> UserData(s, u).fields["profile"] == ProfileData(s.profiles[u.id])
  {
  }

  /** A rendered profile has exactly the declared fields, and its counters are the stored ones. */
  lemma ProfileDataShape(p: Profile)
    ensures ProfileData(p).JObject? && ProfileData(p).fields.Keys == ProfileFields
    ensures ProfileData(p).fields["total_points"] == JInt(p.totalPoints)
    ensures ProfileData(p).fields["total_stars"] == JInt(p.totalStars)
    ensures ProfileData(p).fields["streak_days"] == JInt(p.streakDays)
  {
  }

  /** The counters are read-only in the profile representation, and no profile
      update changes what is rendered for them: a patch through the update
      serializer leaves the three counters and `last_active` as stored. */
  lemma ProfileCountersReadOnly(p: Profile, m: map<ProfileAttr, Value>)
    requires WellTypedProfile(m)
    ensures {"total_points", "total_stars", "streak_days"} <= ProfileReadOnlyFields
    ensures ProfileFields - ProfileReadOnlyFields == {"bio", "last_active"}
    ensures var before, after := ProfileData(p).fields, ProfileData(PatchedProfile(p, m)).fields;
            forall k :: k in ProfileReadOnlyFields - {"avatar"} + {"last_active"} ==>
              k in before && k in after && after[k] == before[k]
  {
    PatchedProfilePointwise(p, m);
    ProfileDataShape(p);
    ProfileDataShape(PatchedProfile(p, m));
  }

  // ---------------------------------------------------------------------------
  // Registration
  // ---------------------------------------------------------------------------

  /** The user columns a registration carries, besides the password. Columns it
      does not carry take the model's defaults. */
  datatype NewUser = NewUser(
    email: string,
    username: string,
    firstName: string,
    lastName: string,
    mobile: string,
    isCollegeStudent: bool,
    collegeName: string,
    branch: string,
    currentYear: Option<int>,
    semester: Option<int>,
    rollNumber: string)

  /** The register serializer's field-validated attributes. */
  datatype RegisterAttrs = RegisterAttrs(fields: NewUser, password: string, password2: string)

  /** The validated data: the confirmation has been popped. */
  datatype Registration = Registration(fields: NewUser, password: string)

  /** A serializer check either yields its value or an error map keyed by field name. */
  datatype Checked<T> = Ok(value: T) | Err(errors: Payload)

  const PasswordMismatch := "Passwords do not match."

  /** `RegisterSerializer.validate`: pops `password2` and rejects a mismatch
      under the `password` key. */
  function Validate(a: RegisterAttrs): (r: Checked<Registration>)
    ensures r.Err? <==> a.password != a.password2
    ensures r.Err? ==> r.errors == map["password" := Messages([PasswordMismatch])]
    ensures r.Ok? ==> r.value.fields == a.fields && r.value.password == a.password
  {
    var popped := a.password2;
    if a.password != popped then Err(map["password" := Messages([PasswordMismatch])])
    else Ok(Registration(a.fields, a.password))
  }

  /** The attributes a client sends to register `v`: the password typed twice. */
  function Confirmed(v: Registration): RegisterAttrs {
    RegisterAttrs(v.fields, v.password, v.password)
  }

  /** Validation accepts exactly the confirmed attributes, and gives back what was confirmed. */
  lemma ValidateRoundTrip(v: Registration, a: RegisterAttrs)
    ensures Validate(Confirmed(v)) == Ok(v)
    ensures Validate(a).Ok? ==> Confirmed(Validate(a).value) == a
  {
  }

  /** The messages of the model's two unique columns, as the generated
      uniqueness validators report them. */
  const EmailTaken := "user with this email already exists."
  const UsernameTaken := "A user with that username already exists."

  /** Some stored user already has this username. */
  predicate UsernameInUse(s: Store, name: string) {
    exists e :: e in s.users && s.users[e].username == name
  }

  /** What the register serializer's field checks produced before its unique
      validators are counted in: the submitted attributes as far as they could
      be read, the messages of every other field validator, keyed by field, and
      the fields whose value could not be read at all (missing, null, blank
      or of the wrong type); no validator of such a field runs. */
  datatype FieldStage = FieldStage(attrs: RegisterAttrs, fieldErrors: map<string, seq<string>>, unread: set<string>)

  /** The framework's guarantee about `FieldStage`: a field that could not be
      read was refused, and every field listed has at least one message. */
  predicate WellFormedStage(st: FieldStage) {
    && (forall k :: k in st.unread ==> k in st.fieldErrors)
    && (forall k :: k in st.fieldErrors ==> st.fieldErrors[k] != [])
  }

  /** The messages listed under field `k`, none when it is absent. */
  function MessagesOf(m: map<string, seq<string>>, k: string): seq<string> {
    if k in m then m[k] else []
  }

  /** Two validators' messages, joined field by field: the first list, then the second. */
  function MergeMessages(a: map<string, seq<string>>, b: map<string, seq<string>>): (m: map<string, seq<string>>)
    ensures m.Keys == a.Keys + b.Keys
    ensures forall k :: k in m ==> m[k] == MessagesOf(a, k) + MessagesOf(b, k)
  {
    map k | k in a.Keys + b.Keys :: MessagesOf(a, k) + MessagesOf(b, k)
  }

  /** The error map as the serializer reports it: each field's messages as a list. */
  function ErrorDetails(m: map<string, seq<string>>): (e: Payload)
    ensures e.Keys == m.Keys
    ensures forall k :: k in e ==> e[k] == Messages(m[k])
  {
    map k | k in m :: Messages(m[k])
  }

  /** The unique validators of the email and username fields, run against the
      stored rows (an exact comparison) for each field whose value was read. */
  function UniquenessMessages(s: Store, st: FieldStage): (e: map<string, seq<string>>)
    ensures e.Keys <= {"email", "username"}
    ensures "email" in e <==> "email" !in st.unread && st.attrs.fields.email in s.users
    ensures "username" in e <==> "username" !in st.unread && UsernameInUse(s, st.attrs.fields.username)
    ensures "email" in e ==> e["email"] == [EmailTaken]
    ensures "username" in e ==> e["username"] == [UsernameTaken]
  {
    var f := st.attrs.fields;
    var emailPart := if "email" !in st.unread && f.email in s.users then map["email" := [EmailTaken]] else map[];
    if "username" !in st.unread && UsernameInUse(s, f.username) then emailPart["username" := [UsernameTaken]]
    else emailPart
  }

  /** `is_valid()` of the register serializer. Every field runs all of its
      validators, the unique ones included, and the errors of all fields are
      reported together; `validate` runs only when no field failed. */
  function CheckRegistration(s: Store, st: FieldStage): (r: Checked<Registration>)
    ensures r.Ok? <==> && st.fieldErrors == map[] && UniquenessMessages(s, st) == map[]
                       && st.attrs.password == st.attrs.password2
    ensures r.Ok? ==> r == Validate(st.attrs)
    ensures st.fieldErrors != map[] || UniquenessMessages(s, st) != map[] ==>
              r == Err(ErrorDetails(MergeMessages(st.fieldErrors, UniquenessMessages(s, st))))
    ensures st.fieldErrors == map[] && UniquenessMessages(s, st) == map[] ==> r == Validate(st.attrs)
  {
    var unique := UniquenessMessages(s, st);
    if st.fieldErrors != map[] || unique != map[] then Err(ErrorDetails(MergeMessages(st.fieldErrors, unique)))
    else Validate(st.attrs)
  }

  /** Nothing a field check reports is lost, and a taken email or username is
      reported under its field, after that field's other messages, whatever
      else failed. */
  lemma RegistrationErrorsReported(s: Store, st: FieldStage)
    ensures forall k :: k in st.fieldErrors ==>
              && CheckRegistration(s, st).Err? && k in CheckRegistration(s, st).errors
              && CheckRegistration(s, st).errors[k] == Messages(st.fieldErrors[k] + MessagesOf(UniquenessMessages(s, st), k))
    ensures "email" !in st.unread && st.attrs.fields.email in s.users ==>
              var r := CheckRegistration(s, st);
              && r.Err? && "email" in r.errors
              && r.errors["email"] == Messages(MessagesOf(st.fieldErrors, "email") + [EmailTaken])
    ensures "username" !in st.unread && UsernameInUse(s, st.attrs.fields.username) ==>
              var r := CheckRegistration(s, st);
              && r.Err? && "username" in r.errors
              && r.errors["username"] == Messages(MessagesOf(st.fieldErrors, "username") + [UsernameTaken])
  {
    var unique := UniquenessMessages(s, st);
    var merged := MergeMessages(st.fieldErrors, unique);
    if st.fieldErrors != map[] || unique != map[] {
      assert CheckRegistration(s, st) == Err(ErrorDetails(merged));
      forall k | k in st.fieldErrors
        ensures CheckRegistration(s, st).errors[k]  == Messages(st.fieldErrors[k] + MessagesOf(unique, k))
      {
        assert k in merged;
      }
      if "email" in unique {
        assert "email" in merged && merged["email"] == MessagesOf(st.fieldErrors, "email") + [EmailTaken];
      }
      if "username" in unique {
        assert "username" in merged && merged["username"] == MessagesOf(st.fieldErrors, "username") + [UsernameTaken];
      }
    }
  }

  /** An accepted registration leaves the email and the username unused. */
  lemma AcceptedIsInsertable(s: Store, st: FieldStage, id: UserId)
    requires WellFormedStage(st) && CheckRegistration(s, st).Ok? && id !in UserIds(s)
    ensures Insertable(s, CheckRegistration(s, st).value.fields, id)
  {
    var f := st.attrs.fields;
    assert "email" !in st.fieldErrors && "username" !in st.fieldErrors;
    assert !UsernameInUse(s, f.username);
    assert CheckRegistration(s, st).value.fields == f;
  }

  /** The user the create step builds from the validated data, without the password: the
      registration's columns, and the model defaults for the rest. */
  function BuildUser(f: NewUser, id: UserId, createdAt: Timestamp): (u: User)
    ensures u.role == DefaultRole && u.isActive && u.college == None && u.cgpa == None && u.password == ""
    ensures u.id == id && u.email == f.email && u.username == f.username && u.createdAt == createdAt
  {
    User(id, f.email, f.username, f.firstName, f.lastName, "", true, f.mobile, DefaultRole,
         f.isCollegeStudent, f.collegeName, f.branch, f.currentYear, f.semester, None, f.rollNumber,
         None, createdAt)
  }

  /** The constraints a new row from this registration must meet: unused email,
      username and primary key. */
  ghost predicate Insertable(s: Store, f: NewUser, id: UserId) {
    && f.email !in s.users
    && id !in UserIds(s)
    && forall e :: e in s.users ==> s.users[e].username != f.username
  }

  /** `RegisterSerializer.create`: pop the password, build the user, store only
      the password's encoding, insert the row. */
  method Create(s: Store, v: Registration, h: Hasher, salt: Salt, id: UserId, createdAt: Timestamp)
    returns (t: Store, u: User)
    requires Valid(s) && Insertable(s, v.fields, id)
    ensures u == BuildUser(v.fields, id, createdAt).(password := h.encode(v.password, salt))
    ensures Valid(t) && CanInsertUser(s, u) && t == AddUser(s, u)
    ensures Sound(h) ==> CheckPassword(u, h, v.password)
  {
    var password := v.password;
    var fields := v.fields;
    u := BuildUser(fields, id, createdAt);
    u := SetPassword(u, h, password, salt);
    t := AddUser(s, u);
  }

  // ---------------------------------------------------------------------------
  // Password change
  // ---------------------------------------------------------------------------

  /** One field's own validation outcome (presence, blank check, validators). */
  datatype FieldResult = Passed(value: string) | Failed(messages: seq<string>)

  const IncorrectPassword := "Current password is incorrect."

  /** `ChangePasswordSerializer.validate_old_password`. */
  function ValidateOldPassword(u: User, h: Hasher, value: string): (r: FieldResult)
    ensures r.Failed? <==> !CheckPassword(u, h, value)
    ensures r.Failed? ==> r.messages == [IncorrectPassword]
    ensures r.Passed? ==> r.value == value
  {
    if !CheckPassword(u, h, value) then Failed([IncorrectPassword]) else Passed(value)
  }

  /** The serializer's error map: `validate_old_password` runs on an old password
      that passed its own field checks; each failed field contributes its messages. */
  function ChangePasswordErrors(u: User, h: Hasher, oldPassword: FieldResult, newPassword: FieldResult): (e: Payload)
    ensures e.Keys <= {"old_password", "new_password"}
    ensures "old_password" in e <==> oldPassword.Failed? || !CheckPassword(u, h, oldPassword.value)
    ensures oldPassword.Passed? && !CheckPassword(u, h, oldPassword.value) ==> e["old_password"] == Messages([IncorrectPassword])
    ensures "new_password" in e <==> newPassword.Failed?
    ensures oldPassword.Failed? ==> e["old_password"] == Messages(oldPassword.messages)
    ensures newPassword.Failed? ==> e["new_password"] == Messages(newPassword.messages)
  {
    var checkedOld := if oldPassword.Passed? then ValidateOldPassword(u, h, oldPassword.value) else oldPassword;
    var oldPart := if checkedOld.Failed? then map["old_password" := Messages(checkedOld.messages)] else map[];
    if newPassword.Failed? then oldPart["new_password" := Messages(newPassword.messages)] else oldPart
  }

  // ---------------------------------------------------------------------------
  // Partial update of the current user and its profile
  // ---------------------------------------------------------------------------

  /** The user columns the update serializer writes. */
  datatype UserAttr =
    FirstName | LastName | Mobile | IsCollegeStudent | CollegeRef | CollegeName | Branch
    | CurrentYear | Semester | Cgpa | RollNumber

  /** The profile columns it writes, through `profile.bio` and `profile.avatar`. */
  datatype ProfileAttr = Bio | Avatar

  /** A validated value for one column. */
  datatype Value =
    | Text(s: string)
    | Flag(b: bool)
    | Number(n: Option<int>)
    | DecimalValue(d: Option<Decimal>)
    | CollegeValue(c: Option<CollegeId>)
    | Image(f: ImageRef)

  function AttrName(a: UserAttr): string {
    match a
    case FirstName => "first_name"
    case LastName => "last_name"
    case Mobile => "mobile"
    case IsCollegeStudent => "is_college_student"
    case CollegeRef => "college"
    case CollegeName => "college_name"
    case Branch => "branch"
    case CurrentYear => "current_year"
    case Semester => "semester"
    case Cgpa => "cgpa"
    case RollNumber => "roll_number"
  }

  function ProfileAttrName(a: ProfileAttr): string {
    match a
    case Bio => "bio"
    case Avatar => "avatar"
  }

  /** The column names the two attribute types stand for are exactly the update
      serializer's fields, which leave out email, role, id and created_at. */
  lemma UpdateAttrsAreUpdateFields()
    ensures (set a: UserAttr | true :: AttrName(a)) + (set p: ProfileAttr | true :: ProfileAttrName(p)) == UpdateFields
    ensures UpdateFields !! {"id", "email", "role", "created_at", "username", "password"}
  {
    var names := (set a: UserAttr | true :: AttrName(a)) + (set p: ProfileAttr | true :: ProfileAttrName(p));
    assert AttrName(FirstName) in names && AttrName(LastName) in names && AttrName(Mobile) in names;
    assert AttrName(IsCollegeStudent) in names && AttrName(CollegeRef) in names && AttrName(CollegeName) in names;
    assert AttrName(Branch) in names && AttrName(CurrentYear) in names && AttrName(Semester) in names;
    assert AttrName(Cgpa) in names && AttrName(RollNumber) in names;
    assert ProfileAttrName(Bio) in names && ProfileAttrName(Avatar) in names;
  }

  /** A value has the column's type. */
  predicate Fits(a: UserAttr, v: Value) {
    match a
    case FirstName | LastName | Mobile | CollegeName | Branch | RollNumber => v.Text?
    case IsCollegeStudent => v.Flag?
    case CurrentYear | Semester => v.Number?
    case Cgpa => v.DecimalValue?
    case CollegeRef => v.CollegeValue?
  }

  predicate FitsProfile(a: ProfileAttr, v: Value) {
    match a
    case Bio => v.Text?
    case Avatar => v.Image?
  }

  /** Reading one writable column of a user. */
  function Get(u: User, a: UserAttr): Value {
    match a
    case FirstName => Text(u.firstName)
    case LastName => Text(u.lastName)
    case Mobile => Text(u.mobile)
    case IsCollegeStudent => Flag(u.isCollegeStudent)
    case CollegeRef => CollegeValue(u.college)
    case CollegeName => Text(u.collegeName)
    case Branch => Text(u.branch)
    case CurrentYear => Number(u.currentYear)
    case Semester => Number(u.semester)
    case Cgpa => DecimalValue(u.cgpa)
    case RollNumber => Text(u.rollNumber)
  }

  /** The columns the update path cannot reach. */
  predicate SameIdentity(u: User, w: User) {
    && u.id == w.id && u.email == w.email && u.username == w.username && u.password == w.password
    && u.isActive == w.isActive && u.role == w.role && u.createdAt == w.createdAt
  }

  /** Writing one column of a user: the named column takes the value, every other column keeps its own. */
  function Set(u: User, a: UserAttr, v: Value): (t: User)
    requires Fits(a, v)
    ensures Get(t, a) == v
    ensures forall b :: b != a ==> Get(t, b) == Get(u, b)
    ensures SameIdentity(t, u)
  {
    match a
    case FirstName => u.(firstName := v.s)
    case LastName => u.(lastName := v.s)
    case Mobile => u.(mobile := v.s)
    case IsCollegeStudent => u.(isCollegeStudent := v.b)
    case CollegeRef => u.(college := v.c)
    case CollegeName => u.(collegeName := v.s)
    case Branch => u.(branch := v.s)
    case CurrentYear => u.(currentYear := v.n)
    case Semester => u.(semester := v.n)
    case Cgpa => u.(cgpa := v.d)
    case RollNumber => u.(rollNumber := v.s)
  }

  /** Two users that agree on identity and on every writable column are equal. */
  lemma UserExtensionality(u: User, w: User)
    requires SameIdentity(u, w)
    requires forall a :: Get(u, a) == Get(w, a)
    ensures u == w
  {
    assert Get(u, FirstName) == Get(w, FirstName) && Get(u, LastName) == Get(w, LastName);
    assert Get(u, Mobile) == Get(w, Mobile) && Get(u, IsCollegeStudent) == Get(w, IsCollegeStudent);
    assert Get(u, CollegeRef) == Get(w, CollegeRef) && Get(u, CollegeName) == Get(w, CollegeName);
    assert Get(u, Branch) == Get(w, Branch) && Get(u, CurrentYear) == Get(w, CurrentYear);
    assert Get(u, Semester) == Get(w, Semester) && Get(u, Cgpa) == Get(w, Cgpa);
    assert Get(u, RollNumber) == Get(w, RollNumber);
  }

  ghost predicate WellTyped(m: map<UserAttr, Value>) {
    forall a :: a in m ==> Fits(a, m[a])
  }

  ghost predicate WellTypedProfile(m: map<ProfileAttr, Value>) {
    forall a :: a in m ==> FitsProfile(a, m[a])
  }

  /** The user after the supplied columns are written: each supplied column
      takes its new value, every other column keeps its old one. */
  function Patched(u: User, m: map<UserAttr, Value>): User
    requires WellTyped(m)
  {
    u.(firstName := if FirstName in m then m[FirstName].s else u.firstName,
       lastName := if LastName in m then m[LastName].s else u.lastName,
       mobile := if Mobile in m then m[Mobile].s else u.mobile,
       isCollegeStudent := if IsCollegeStudent in m then m[IsCollegeStudent].b else u.isCollegeStudent,
       college := if CollegeRef in m then m[CollegeRef].c else u.college,
       collegeName := if CollegeName in m then m[CollegeName].s else u.collegeName,
       branch := if Branch in m then m[Branch].s else u.branch,
       currentYear := if CurrentYear in m then m[CurrentYear].n else u.currentYear,
       semester := if Semester in m then m[Semester].n else u.semester,
       cgpa := if Cgpa in m then m[Cgpa].d else u.cgpa,
       rollNumber := if RollNumber in m then m[RollNumber].s else u.rollNumber)
  }

  /** Every supplied column equals its new value, every unsupplied one is
      unchanged, and email, role, id, username, password and created_at stay. */
  lemma PatchedPointwise(u: User, m: map<UserAttr, Value>)
    requires WellTyped(m)
    ensures forall a :: Get(Patched(u, m), a) == if a in m then m[a] else Get(u, a)
    ensures SameIdentity(Patched(u, m), u)
  {
    forall a ensures Get(Patched(u, m), a) == if a in m then m[a] else Get(u, a) {
      if a in m { assert Fits(a, m[a]); }
    }
  }

  /** The `setattr` loop over the validated user data. */
  method ApplyUserFields(u0: User, m: map<UserAttr, Value>) returns (u: User)
    requires WellTyped(m)
    ensures u == Patched(u0, m)
  {
    u := u0;
    var pending := m.Keys;
    while pending != {}
      invariant pending <= m.Keys
      invariant SameIdentity(u, u0)
      invariant forall a :: Get(u, a) == if a in m && a !in pending then m[a] else Get(u0, a)
      decreases pending
    {
      var a :| a in pending;
      PatchStep(u0, u, m, pending, a);
      u := Set(u, a, m[a]);
      pending := pending - {a};
    }
    PatchedCharacterized(u0, u, m);
  }

  /** Writing one more pending column keeps the loop's picture of the user. */
  lemma PatchStep(u0: User, u: User, m: map<UserAttr, Value>, pending: set<UserAttr>, a: UserAttr)
    requires WellTyped(m) && a in pending && pending <= m.Keys
    requires forall b :: Get(u, b) == if b in m && b !in pending then m[b] else Get(u0, b)
    ensures forall b :: Get(Set(u, a, m[a]), b) == if b in m && b !in pending - {a} then m[b] else Get(u0, b)
  {
  }

  /** A user with the same identity whose every writable column is the supplied
      value or, when none is supplied, the old one, is the patched user. */
  lemma PatchedCharacterized(u0: User, u: User, m: map<UserAttr, Value>)
    requires WellTyped(m) && SameIdentity(u, u0)
    requires forall a :: Get(u, a) == if a in m then m[a] else Get(u0, a)
    ensures u == Patched(u0, m)
  {
    PatchedPointwise(u0, m);
    UserExtensionality(u, Patched(u0, m));
  }

  function GetProfile(p: Profile, a: ProfileAttr): Value {
    match a
    case Bio => Text(p.bio)
    case Avatar => Image(p.avatar)
  }

  /** The profile columns the update path cannot reach. */
  predicate SameCounters(p: Profile, q: Profile) {
    && p.user == q.user && p.totalPoints == q.totalPoints && p.totalStars == q.totalStars
    && p.streakDays == q.streakDays && p.lastActive == q.lastActive
  }

  /** Writing one column of a profile. */
  function SetProfile(p: Profile, a: ProfileAttr, v: Value): (q: Profile)
    requires FitsProfile(a, v)
    ensures GetProfile(q, a) == v
    ensures forall b :: b != a ==> GetProfile(q, b) == GetProfile(p, b)
    ensures SameCounters(q, p)
  {
    match a
    case Bio => p.(bio := v.s)
    case Avatar => p.(avatar := v.f)
  }

  /** The profile after the supplied columns are written. */
  function PatchedProfile(p: Profile, m: map<ProfileAttr, Value>): Profile
    requires WellTypedProfile(m)
  {
    p.(bio := if Bio in m then m[Bio].s else p.bio,
       avatar := if Avatar in m then m[Avatar].f else p.avatar)
  }

  /** Supplied profile columns take their values, the others (and every counter) keep theirs. */
  lemma PatchedProfilePointwise(p: Profile, m: map<ProfileAttr, Value>)
    requires WellTypedProfile(m)
    ensures forall a :: GetProfile(PatchedProfile(p, m), a) == if a in m then m[a] else GetProfile(p, a)
    ensures SameCounters(PatchedProfile(p, m), p)
  {
    forall a ensures GetProfile(PatchedProfile(p, m), a) == if a in m then m[a] else GetProfile(p, a) {
      if a in m { assert FitsProfile(a, m[a]); }
    }
  }

  /** The `setattr` loop over the validated profile data. */
  method ApplyProfileFields(p0: Profile, m: map<ProfileAttr, Value>) returns (p: Profile)
    requires WellTypedProfile(m)
    ensures p == PatchedProfile(p0, m)
  {
    p := p0;
    var pending := m.Keys;
    while pending != {}
      invariant pending <= m.Keys
      invariant SameCounters(p, p0)
      invariant forall a :: GetProfile(p, a) == if a in m && a !in pending then m[a] else GetProfile(p0, a)
      decreases pending
    {
      var a :| a in pending;
      p := SetProfile(p, a, m[a]);
      pending := pending - {a};
    }
    PatchedProfilePointwise(p0, m);
    assert GetProfile(p, Bio) == GetProfile(PatchedProfile(p0, m), Bio);
    assert GetProfile(p, Avatar) == GetProfile(PatchedProfile(p0, m), Avatar);
  }

  /** The update serializer's validated data: user columns, and the profile
      columns nested under `profile` (empty when none were sent). */
  datatype UpdateData = UpdateData(user: map<UserAttr, Value>, profile: map<ProfileAttr, Value>)

  /** What field validation guarantees of the update data: each value has its
      column's type, and a college reference names a stored college. */
  ghost predicate Acceptable(s: Store, d: UpdateData) {
    && WellTyped(d.user)
    && WellTypedProfile(d.profile)
    && (CollegeRef in d.user && d.user[CollegeRef].c.Some? ==> d.user[CollegeRef].c.value in s.colleges)
  }

  /** `UpdateProfileSerializer.update`: write and save the user columns; then,
      only when profile data was sent, write and save the profile. Reading the
      profile of a user who has none raises after the user row was saved
      (`profileMissing`). */
  method Update(s: Store, me: string, d: UpdateData) returns (t: Store, profileMissing: bool)
    requires Valid(s) && me in s.users && Acceptable(s, d)
    ensures Valid(t)
    ensures t.users == s.users[me := Patched(s.users[me], d.user)] && t.colleges == s.colleges
    ensures profileMissing <==> d.profile != map[] && s.users[me].id !in s.profiles
    ensures t.profiles == if d.profile == map[] || profileMissing then s.profiles
                          else s.profiles[s.users[me].id := PatchedProfile(s.profiles[s.users[me].id], d.profile)]
  {
    var profileData := d.profile;
    var u := ApplyUserFields(s.users[me], d.user);
    PatchedPointwise(s.users[me], d.user);
    assert Get(u, CollegeRef) == if CollegeRef in d.user then d.user[CollegeRef] else Get(s.users[me], CollegeRef);
    t := SaveUser(s, u);
    profileMissing := false;
    if profileData != map[] {
      if u.id !in t.profiles {
        profileMissing := true;
        return;
      }
      var p := ApplyProfileFields(t.profiles[u.id], profileData);
      t := SaveProfile(t, p);
    }
  }
}
