/** The account data model: colleges, users with a role, and one profile per
    user, held in a store whose invariants are the database's unique and
    foreign-key constraints. */
module Accounts {
  import opened Values

  /** The four role choices; a user created without one is `Free`. */
  datatype Role = Free | Subscriber | CollegeAdmin | SuperAdmin

  const DefaultRole: Role := Free

  /** The stored value of each choice. */
  const RoleChoices: set<string> := {"free", "subscriber", "college_admin", "super_admin"}

  function RoleName(r: Role): string {
    match r
    case Free => "free"
    case Subscriber => "subscriber"
    case CollegeAdmin => "college_admin"
    case SuperAdmin => "super_admin"
  }

  /** The four roles are stored as the four choices, one choice per role, so the
      rendered role text names the role. */
  lemma RoleChoicesMatchRoles(r1: Role, r2: Role, c: string)
    ensures RoleName(r1) in RoleChoices
    ensures RoleName(r1) == RoleName(r2) ==> r1 == r2
    ensures c in RoleChoices ==> exists r: Role :: RoleName(r) == c
  {
    if c in RoleChoices {
      if c == "free" { assert RoleName(Free) == c; }
      else if c == "subscriber" { assert RoleName(Subscriber) == c; }
      else if c == "college_admin" { assert RoleName(CollegeAdmin) == c; }
      else { assert RoleName(SuperAdmin) == c; }
    }
  }

  type UserId = nat
  type CollegeId = nat
  /** An encoded password hash, as the hasher produces it. */
  type Digest = string
  /** Timestamps, dates, decimals and file names are opaque text: nothing computes with them. */
  type Timestamp = string
  type Date = string
  type Decimal = string
  type ImageRef = string

  datatype College = College(name: string, code: string, address: string, isActive: bool, createdAt: Timestamp)

  datatype User = User(
    id: UserId,
    email: string,
    username: string,
    firstName: string,
    lastName: string,
    password: Digest,
    isActive: bool,
    mobile: string,
    role: Role,
    isCollegeStudent: bool,
    collegeName: string,
    branch: string,
    currentYear: Option<int>,
    semester: Option<int>,
    cgpa: Option<Decimal>,
    rollNumber: string,
    college: Option<CollegeId>,
    createdAt: Timestamp)

  datatype Profile = Profile(
    user: UserId,
    avatar: ImageRef,
    bio: string,
    totalPoints: int,
    totalStars: int,
    streakDays: int,
    lastActive: Option<Date>)

  /** The persisted rows: users by login identifier (email), profiles by the id
      of the user they belong to, colleges by id. */
  datatype Store = Store(users: map<string, User>, profiles: map<UserId, Profile>, colleges: map<CollegeId, College>)

  function UserIds(s: Store): set<UserId> {
    set e | e in s.users :: s.users[e].id
  }

  ghost predicate EmailIsKey(s: Store) {
    forall e :: e in s.users ==> s.users[e].email == e
  }

  ghost predicate UniqueIds(s: Store) {
    forall e1, e2 :: e1 in s.users && e2 in s.users && e1 != e2 ==> s.users[e1].id != s.users[e2].id
  }

  ghost predicate UniqueUsernames(s: Store) {
    forall e1, e2 :: e1 in s.users && e2 in s.users && e1 != e2 ==> s.users[e1].username != s.users[e2].username
  }

  /** A user's college reference is null or names a stored college. */
  ghost predicate CollegeRefsExist(s: Store) {
    forall e :: e in s.users && s.users[e].college.Some? ==> s.users[e].college.value in s.colleges
  }

  ghost predicate UniqueCollegeCodes(s: Store) {
    forall c1, c2 :: c1 in s.colleges && c2 in s.colleges && c1 != c2 ==> s.colleges[c1].code != s.colleges[c2].code
  }

  /** Each profile is keyed by its own user's id, and that user exists. */
  ghost predicate ProfilesOwned(s: Store) {
    && (forall k :: k in s.profiles ==> s.profiles[k].user == k)
    && s.profiles.Keys <= UserIds(s)
  }

  ghost predicate Valid(s: Store) {
    && EmailIsKey(s)
    && UniqueIds(s)
    && UniqueUsernames(s)
    && CollegeRefsExist(s)
    && UniqueCollegeCodes(s)
    && ProfilesOwned(s)
  }

  /** The empty database satisfies every constraint. */
  lemma EmptyStoreValid()
    ensures Valid(Store(map[], map[], map[]))
  {
  }

  /** Email is the login identifier: two stored users with the same email are the same row. */
  lemma EmailIdentifiesUser(s: Store, e1: string, e2: string)
    requires Valid(s) && e1 in s.users && e2 in s.users
    requires s.users[e1].email == s.users[e2].email
    ensures e1 == e2
  {
  }

  /** Each profile belongs to exactly one user. */
  lemma ProfileHasOneOwner(s: Store, k: UserId)
    requires Valid(s) && k in s.profiles
    ensures exists e :: e in s.users && s.users[e].id == k
    ensures forall e1, e2 :: e1 in s.users && e2 in s.users && s.users[e1].id == k && s.users[e2].id == k ==> e1 == e2
  {
    assert k in UserIds(s);
  }

  /** A new profile: no avatar, empty bio, and every counter at zero. */
  function NewProfile(uid: UserId): (p: Profile)
    ensures p.user == uid
    ensures p.totalPoints == 0 && p.totalStars == 0 && p.streakDays == 0
  {
    Profile(uid, "", "", 0, 0, 0, None)
  }

  /** What the unique and foreign-key constraints demand of a row inserted into `users`. */
  ghost predicate CanInsertUser(s: Store, u: User) {
    && u.email !in s.users
    && u.id !in UserIds(s)
    && (forall e :: e in s.users ==> s.users[e].username != u.username)
    && (u.college.Some? ==> u.college.value in s.colleges)
  }

  /** Inserting a user (the `save` of a new row). */
  function AddUser(s: Store, u: User): (t: Store)
    requires Valid(s) && CanInsertUser(s, u)
    ensures Valid(t)
    ensures t.users == s.users[u.email := u] && t.profiles == s.profiles && t.colleges == s.colleges
    ensures UserIds(t) == UserIds(s) + {u.id}
  {
    var t := s.(users := s.users[u.email := u]);
    AddedUserIds(s, u);
    t
  }

  /** An id that was unused and is not the inserted row's stays unused. */
  lemma FreshAfterInsert(s: Store, u: User, id: UserId)
    requires u.email !in s.users && id !in UserIds(s) && id != u.id
    ensures id !in UserIds(s.(users := s.users[u.email := u]))
  {
    AddedUserIds(s, u);
  }

  /** Inserting a row under a new key adds exactly that row's id to the set of ids. */
  lemma AddedUserIds(s: Store, u: User)
    requires u.email !in s.users
    ensures UserIds(s.(users := s.users[u.email := u])) == UserIds(s) + {u.id}
  {
    var t := s.(users := s.users[u.email := u]);
    forall x | x in UserIds(t) ensures x in UserIds(s) + {u.id} {
      var e :| e in t.users && t.users[e].id == x;
      if e != u.email { assert x in UserIds(s); }
    }
    forall x | x in UserIds(s) ensures x in UserIds(t) {
      var e :| e in s.users && s.users[e].id == x;
      assert t.users[e] == s.users[e];
    }
    assert t.users[u.email].id == u.id;
  }

  /** What the constraints demand of a row written back over an existing user. */
  ghost predicate CanSaveUser(s: Store, u: User) {
    && u.email in s.users
    && s.users[u.email].id == u.id
    && (forall e :: e in s.users && e != u.email ==> s.users[e].username != u.username)
    && (u.college.Some? ==> u.college.value in s.colleges)
  }

  /** Writing an existing user row back (the `save` of a loaded row). */
  function SaveUser(s: Store, u: User): (t: Store)
    requires Valid(s) && CanSaveUser(s, u)
    ensures Valid(t)
    ensures t.users == s.users[u.email := u] && t.profiles == s.profiles && t.colleges == s.colleges
    ensures UserIds(t) == UserIds(s)
  {
    var t := s.(users := s.users[u.email := u]);
    SavedUserKeepsConstraints(s, u);
    t
  }

  /** Overwriting a row with one of the same id and a username no other row has
      keeps every constraint and the set of ids. */
  lemma SavedUserKeepsConstraints(s: Store, u: User)
    requires Valid(s) && CanSaveUser(s, u)
    ensures var t := s.(users := s.users[u.email := u]); Valid(t) && UserIds(t) == UserIds(s)
  {
    var t := s.(users := s.users[u.email := u]);
    assert forall e :: e in s.users ==> t.users[e].id == s.users[e].id;
    SameIdsSameUserIds(s, t);
    forall e1, e2 | e1 in t.users && e2 in t.users && e1 != e2
      ensures t.users[e1].username != t.users[e2].username
    {
      if e1 != u.email && e2 != u.email {
        assert t.users[e1] == s.users[e1] && t.users[e2] == s.users[e2];
      }
    }
  }

  /** Creating the profile of a user who has none (the one-to-one column is unique). */
  function AddProfile(s: Store, uid: UserId): (t: Store)
    requires Valid(s) && uid in UserIds(s) && uid !in s.profiles
    ensures Valid(t)
    ensures t.profiles == s.profiles[uid := NewProfile(uid)] && t.users == s.users && t.colleges == s.colleges
  {
    s.(profiles := s.profiles[uid := NewProfile(uid)])
  }

  /** Writing an existing profile row back. */
  function SaveProfile(s: Store, p: Profile): (t: Store)
    requires Valid(s) && p.user in s.profiles
    ensures Valid(t)
    ensures t.profiles == s.profiles[p.user := p] && t.users == s.users && t.colleges == s.colleges
  {
    s.(profiles := s.profiles[p.user := p])
  }

  /** Inserting a college; its code must be new. */
  function AddCollege(s: Store, c: CollegeId, college: College): (t: Store)
    requires Valid(s) && c !in s.colleges
    requires forall d :: d in s.colleges ==> s.colleges[d].code != college.code
    ensures Valid(t)
    ensures t.colleges == s.colleges[c := college] && t.users == s.users && t.profiles == s.profiles
  {
    s.(colleges := s.colleges[c := college])
  }

  /** The user row after its college is deleted (`on_delete=SET_NULL`). */
  function Detached(u: User, c: CollegeId): User {
    if u.college == Some(c) then u.(college := None) else u
  }

  /** Deleting a college keeps every student and clears the references to it;
      nothing else about any user changes. */
  function DeleteCollege(s: Store, c: CollegeId): (t: Store)
    requires Valid(s)
    ensures Valid(t)
    ensures t.colleges == s.colleges - {c} && t.profiles == s.profiles
    ensures t.users.Keys == s.users.Keys
    ensures forall e :: e in s.users ==>
              t.users[e] == (if s.users[e].college == Some(c) then s.users[e].(college := None) else s.users[e])
  {
    var users := map e | e in s.users :: Detached(s.users[e], c);
    var t := Store(users, s.profiles, s.colleges - {c});
    assert forall e :: e in t.users ==> t.users[e].id == s.users[e].id;
    SameIdsSameUserIds(s, t);
    assert UniqueUsernames(t) by {
      assert forall e :: e in t.users ==> t.users[e].username == s.users[e].username;
    }
    t
  }

  /** Rewriting user rows in place, keeping each row's id, keeps the set of ids. */
  lemma SameIdsSameUserIds(s: Store, t: Store)
    requires t.users.Keys == s.users.Keys
    requires forall e :: e in s.users ==> t.users[e].id == s.users[e].id
    ensures UserIds(t) == UserIds(s)
  {
    forall x | x in UserIds(t) ensures x in UserIds(s) {
      var e :| e in t.users && t.users[e].id == x;
      assert s.users[e].id == x;
    }
    forall x | x in UserIds(s) ensures x in UserIds(t) {
      var e :| e in s.users && s.users[e].id == x;
      assert t.users[e].id == x;
    }
  }

  /** Deleting a user also deletes that user's profile (`on_delete=CASCADE`);
      every other row stays. */
  function DeleteUser(s: Store, email: string): (t: Store)
    requires Valid(s)
    ensures Valid(t)
    ensures t.users == s.users - {email} && t.colleges == s.colleges
    ensures email in s.users ==> t.profiles == s.profiles - {s.users[email].id}
    ensures email !in s.users ==> t == s
  {
    if email !in s.users then s
    else
      var id := s.users[email].id;
      var t := Store(s.users - {email}, s.profiles - {id}, s.colleges);
      RemovedUserIds(s, email);
      assert t.profiles.Keys <= UserIds(t);
      t
  }

  /** Removing a user row removes exactly that row's id from the set of ids. */
  lemma RemovedUserIds(s: Store, email: string)
    requires UniqueIds(s) && email in s.users
    ensures UserIds(s.(users := s.users - {email})) == UserIds(s) - {s.users[email].id}
  {
    var t := s.(users := s.users - {email});
    forall x | x in UserIds(s) - {s.users[email].id} ensures x in UserIds(t) {
      var e :| e in s.users && s.users[e].id == x;
      assert e != email && t.users[e].id == x;
    }
  }

  /** After a cascade delete no profile is left without its user. */
  lemma NoOrphanProfileAfterDelete(s: Store, email: string)
    requires Valid(s) && email in s.users
    ensures s.users[email].id !in DeleteUser(s, email).profiles
    ensures forall k :: k in DeleteUser(s, email).profiles ==> k in UserIds(DeleteUser(s, email))
  {
  }
}
