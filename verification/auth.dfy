/**
  The authentication service: the organization slug derived from its name,
  and the signup and login decisions over the user, organization and
  membership tables.
*/
module Auth {
  import opened Wrappers
  import opened Ascii
  import opened Seqs
  import opened Schema

  // ---------------------------------------------------------------------------
  // Organization slug

  /** A character of the class `[a-z0-9]`. */
  predicate IsSlugChar(c: char) { IsLower(c) || IsDigit(c) }

  /** No two dashes in a row. */
  predicate NoDoubleDash(s: string) {
    forall i, j :: 0 <= i < |s| && 0 <= j < |s| && j == i + 1 ==> !(s[i] == '-' && s[j] == '-')
  }

  /** Every character is in `[a-z0-9]` or is a dash. */
  predicate SlugAlphabet(s: string) {
    forall i :: 0 <= i < |s| ==> IsSlugChar(s[i]) || s[i] == '-'
  }

  /** Drops the leading characters outside `[a-z0-9]`: the rest of a run the regex consumes. */
  function SkipRun(s: string): (r: string)
    ensures |r| <= |s|
    ensures r == [] || IsSlugChar(r[0])
  {
    if s != [] && !IsSlugChar(s[0]) then SkipRun(s[1..]) else s
  }

  /** `replace(/[^a-z0-9]+/g, "-")`: every maximal run outside `[a-z0-9]` becomes one dash. */
  function Collapse(s: string): string
    decreases |s|
  {
    if s == [] then []
    else if IsSlugChar(s[0]) then [s[0]] + Collapse(s[1..])
    else "-" + Collapse(SkipRun(s[1..]))
  }

  /**
    The collapsed string holds only `[a-z0-9-]` and never `--`; it starts with
    a dash exactly when the input starts outside `[a-z0-9]`.
  */
  lemma {:induction false} CollapseShape(s: string)
    ensures SlugAlphabet(Collapse(s)) && NoDoubleDash(Collapse(s))
    ensures Collapse(s) != [] ==> s != [] && (Collapse(s)[0] == '-' <==> !IsSlugChar(s[0]))
    decreases |s|
  {
    if s != [] {
      var rest := if IsSlugChar(s[0]) then s[1..] else SkipRun(s[1..]);
      var head := if IsSlugChar(s[0]) then s[0] else '-';
      CollapseShape(rest);
      var tail := Collapse(rest);
      var r := [head] + tail;
      assert Collapse(s) == r;
      assert forall i :: 1 <= i < |r| ==> r[i] == tail[i - 1];
      if tail != [] && head == '-' {
        assert rest != [] && IsSlugChar(rest[0]);
      }
    }
  }

  /** The `^-+` half of `replace(/^-+|-+$/g, "")`. */
  function TrimStart(s: string): (r: string)
    ensures |r| <= |s|
    ensures r == [] || r[0] != '-'
  {
    if s != [] && s[0] == '-' then TrimStart(s[1..]) else s
  }

  /** Trimming the front removes a prefix of dashes and nothing else. */
  lemma {:induction false} TrimStartDropsDashes(s: string)
    ensures TrimStart(s) == s[|s| - |TrimStart(s)|..]
    ensures forall i :: 0 <= i < |s| - |TrimStart(s)| ==> s[i] == '-'
  {
    if s != [] && s[0] == '-' {
      TrimStartDropsDashes(s[1..]);
      assert forall i :: 1 <= i < |s| - |TrimStart(s)| ==> s[i] == s[1..][i - 1];
    }
  }

  /** The `-+$` half of `replace(/^-+|-+$/g, "")`. */
  function TrimEnd(s: string): (r: string)
    ensures r <= s
    ensures r == [] || r[|r| - 1] != '-'
  {
    if s != [] && s[|s| - 1] == '-' then TrimEnd(s[..|s| - 1]) else s
  }

  /** Only dashes are trimmed from the back. */
  lemma {:induction false} TrimEndDropsDashes(s: string)
    ensures forall i :: |TrimEnd(s)| <= i < |s| ==> s[i] == '-'
  {
    if s != [] && s[|s| - 1] == '-' {
      TrimEndDropsDashes(s[..|s| - 1]);
    }
  }

  /**
    The slug of an organization name: lowercase, collapse every run outside
    `[a-z0-9]` to a dash, trim the dashes at both ends. The result holds only
    `[a-z0-9-]`, never starts or ends with a dash, and never holds `--`.
  */
  function Slug(name: string): string {
    TrimEnd(TrimStart(Collapse(Lower(name))))
  }

  /** The slug holds only `[a-z0-9-]`, never starts or ends with a dash, and never holds `--`. */
  lemma SlugShape(name: string)
    ensures SlugAlphabet(Slug(name)) && NoDoubleDash(Slug(name))
    ensures Slug(name) == [] || (Slug(name)[0] != '-' && Slug(name)[|Slug(name)| - 1] != '-')
  {
    CollapseShape(Lower(name));
    TrimKeepsShape(Collapse(Lower(name)));
  }

  /** Trimming the dashes at both ends of a string of `[a-z0-9-]` without `--` keeps that shape. */
  lemma TrimKeepsShape(collapsed: string)
    requires SlugAlphabet(collapsed) && NoDoubleDash(collapsed)
    ensures var slug := TrimEnd(TrimStart(collapsed));
      && SlugAlphabet(slug) && NoDoubleDash(slug)
      && (slug == [] || (slug[0] != '-' && slug[|slug| - 1] != '-'))
  {
    var trimmed := TrimStart(collapsed);
    TrimStartDropsDashes(collapsed);
    SubstringKeepsShape(collapsed, |collapsed| - |trimmed|, |collapsed|);
    var slug := TrimEnd(trimmed);
    SubstringKeepsShape(trimmed, 0, |slug|);
    assert slug == trimmed[0..|slug|];
  }

  /** A slice of a string made of `[a-z0-9-]` without `--` is again such a string. */
  lemma SubstringKeepsShape(s: string, lo: nat, hi: nat)
    requires lo <= hi <= |s|
    requires SlugAlphabet(s) && NoDoubleDash(s)
    ensures SlugAlphabet(s[lo..hi]) && NoDoubleDash(s[lo..hi])
  {
    var t := s[lo..hi];
    assert forall i :: 0 <= i < |t| ==> t[i] == s[lo + i];
  }

  /** A string already in slug form is left unchanged by `Collapse`. */
  lemma {:induction false} CollapseFixed(s: string)
    requires SlugAlphabet(s) && NoDoubleDash(s)
    ensures Collapse(s) == s
    decreases |s|
  {
    if s != [] {
      SubstringKeepsShape(s, 1, |s|);
      CollapseFixed(s[1..]);
      if !IsSlugChar(s[0]) {
        assert s[1..] == [] || IsSlugChar(s[1]);
        assert SkipRun(s[1..]) == s[1..];
      }
    }
  }

  /** Slugifying a slug gives it back: the slug is idempotent. */
  lemma SlugIdempotent(name: string)
    ensures Slug(Slug(name)) == Slug(name)
  {
    var slug := Slug(name);
    SlugShape(name);
    LowerWithoutUpper(slug);
    CollapseFixed(slug);
    assert TrimStart(slug) == slug;
    assert TrimEnd(slug) == slug;
  }

  lemma {:induction false} FilterSkipRun(s: string)
    ensures Filter(IsSlugChar, SkipRun(s)) == Filter(IsSlugChar, s)
  {
    if s != [] && !IsSlugChar(s[0]) {
      FilterSkipRun(s[1..]);
    }
  }

  lemma {:induction false} FilterCollapse(s: string)
    ensures Filter(IsSlugChar, Collapse(s)) == Filter(IsSlugChar, s)
    decreases |s|
  {
    if s != [] {
      if IsSlugChar(s[0]) {
        FilterCollapse(s[1..]);
        var r := [s[0]] + Collapse(s[1..]);
        assert r[0] == s[0] && r[1..] == Collapse(s[1..]);
      } else {
        FilterCollapse(SkipRun(s[1..]));
        FilterSkipRun(s[1..]);
        var r := "-" + Collapse(SkipRun(s[1..]));
        assert r[0] == '-' && r[1..] == Collapse(SkipRun(s[1..]));
      }
    }
  }

  lemma {:induction false} FilterTrimStart(s: string)
    ensures Filter(IsSlugChar, TrimStart(s)) == Filter(IsSlugChar, s)
  {
    if s != [] && s[0] == '-' {
      FilterTrimStart(s[1..]);
    }
  }

  lemma {:induction false} FilterTrimEnd(s: string)
    ensures Filter(IsSlugChar, TrimEnd(s)) == Filter(IsSlugChar, s)
  {
    if s != [] && s[|s| - 1] == '-' {
      var init := s[..|s| - 1];
      FilterTrimEnd(init);
      assert s == init + ['-'];
      FilterConcat(IsSlugChar, init, ['-']);
      assert ['-'][1..] == [];
    }
  }

  /**
    The letters and digits of the lowercased name survive, in order, and
    nothing else of `[a-z0-9]` is added.
  */
  lemma SlugKeepsLettersAndDigits(name: string)
    ensures Filter(IsSlugChar, Slug(name)) == Filter(IsSlugChar, Lower(name))
  {
    var collapsed := Collapse(Lower(name));
    FilterCollapse(Lower(name));
    FilterTrimStart(collapsed);
    FilterTrimEnd(TrimStart(collapsed));
  }

  /** The slug is empty exactly when the lowercased name holds no letter or digit of `[a-z0-9]`. */
  lemma SlugEmptyIff(name: string)
    ensures Slug(name) == [] <==> Filter(IsSlugChar, Lower(name)) == []
  {
    var slug := Slug(name);
    SlugShape(name);
    SlugKeepsLettersAndDigits(name);
    if slug != [] {
      assert IsSlugChar(slug[0]);
      FilterKeeps(IsSlugChar, slug, slug[0]);
    }
  }

  // ---------------------------------------------------------------------------
  // Signup and login over the user, organization and membership tables

  datatype User = User(id: nat, name: string, email: string, passwordHash: string, role: UserRole)
  datatype Organization = Organization(id: nat, name: string, slug: string)
  datatype Membership = Membership(organizationId: nat, userId: nat, role: MemberRole)

  datatype SignupData = SignupData(
    name: string,
    email: string,
    password: string,
    role: UserRole,
    organizationName: Option<string>)

  datatype SignupResult = SignupResult(success: bool, user: Option<User>, organization: Option<Organization>, error: Option<string>)

  /** `organizations` is the result of the membership join, which has no order: a set. */
  datatype LoginResult = LoginResult(success: bool, user: Option<User>, organizations: set<Organization>, error: Option<string>)

  const UserExistsError := "User already exists with this email"
  const InvalidCredentials := "Invalid credentials"
  const SignupFailedError := "Failed to create account"

  function SignupFailure(error: string): SignupResult {
    SignupResult(false, None, None, Some(error))
  }

  function LoginFailure(error: string): LoginResult {
    LoginResult(false, None, {}, Some(error))
  }

  /** `data.role === "OWNER" && data.organizationName`: an owner who typed a non-empty name. */
  predicate WantsOrganization(data: SignupData) {
    data.role == Owner && data.organizationName.Some? && data.organizationName.value != ""
  }

  /** The membership table links the user to the organization. */
  predicate HasMembership(members: seq<Membership>, userId: nat, organizationId: nat) {
    exists i | 0 <= i < |members| :: members[i].userId == userId && members[i].organizationId == organizationId
  }

  /** `getUserOrganizations`: the organizations the user has a membership in. */
  function UserOrganizations(organizations: map<string, Organization>, members: seq<Membership>, userId: nat): set<Organization> {
    set o | o in organizations.Values && HasMembership(members, userId, o.id)
  }

  lemma MembershipAppended(members: seq<Membership>, m: Membership)
    ensures HasMembership(members + [m], m.userId, m.organizationId)
  {
    assert (members + [m])[|members|] == m;
  }

  function NewUser(id: nat, data: SignupData, passwordHash: string): User {
    User(id, data.name, data.email, passwordHash, data.role)
  }

  function NewOrganization(id: nat, data: SignupData): Organization
    requires WantsOrganization(data)
  {
    Organization(id, data.organizationName.value, Slug(data.organizationName.value))
  }

  /**
    Each table is keyed by its unique column (users by email, organizations
    by slug), and every id in them was drawn before `nextId`.
  */
  predicate TablesKeyed(users: map<string, User>, organizations: map<string, Organization>, nextId: nat) {
    (forall e :: e in users ==> users[e].email == e && users[e].id < nextId)
    && (forall slug :: slug in organizations ==> organizations[slug].slug == slug && organizations[slug].id < nextId)
  }

  /** Inserting a new user under its email, with the next id, keeps the tables keyed. */
  lemma UserInsertKeepsKeys(users: map<string, User>, organizations: map<string, Organization>, nextId: nat, data: SignupData, passwordHash: string)
    requires TablesKeyed(users, organizations, nextId)
    ensures TablesKeyed(users[data.email := NewUser(nextId, data, passwordHash)], organizations, nextId + 1)
  {
  }

  /** Inserting a new organization under its slug, with the next id, keeps the tables keyed. */
  lemma OrganizationInsertKeepsKeys(users: map<string, User>, organizations: map<string, Organization>, nextId: nat, name: string, slug: string)
    requires TablesKeyed(users, organizations, nextId)
    ensures TablesKeyed(users, organizations[slug := Organization(nextId, name, slug)], nextId + 1)
  {
  }

  /** After the organization and the owner's membership are inserted, the organization is among the owner's organizations. */
  lemma NewOrganizationListed(organizations: map<string, Organization>, members: seq<Membership>, slug: string, org: Organization, userId: nat)
    ensures org in UserOrganizations(organizations[slug := org], members + [Membership(org.id, userId, OrgOwner)], userId)
  {
    MembershipAppended(members, Membership(org.id, userId, OrgOwner));
    assert organizations[slug := org][slug] == org;
  }

  /**
    The three tables signup and login touch. Users are keyed by their email
    and organizations by their slug, the unique key of each table. Row ids are
    drawn from `nextId`, so every new row gets an id no other row has.
  */
  class AuthStore {
    var users: map<string, User>
    var organizations: map<string, Organization>
    var members: seq<Membership>
    var nextId: nat

    ghost predicate Valid()
      reads this
    {
      TablesKeyed(users, organizations, nextId)
    }

    constructor()
      ensures Valid()
      ensures users == map[] && organizations == map[] && members == [] && nextId == 0
    {
      users := map[];
      organizations := map[];
      members := [];
      nextId := 0;
    }

    /**
      `signup`. A registered email is refused and nothing changes. Otherwise
      the user is inserted; an owner who named an organization also gets the
      organization, under the slug of its name, and an OWNER membership in
      it. The inserts are not in one transaction: when the slug is already
      taken the organization insert fails, the call reports "Failed to create
      account", and the user row stays.
    */
    method Signup(data: SignupData, passwordHash: string) returns (result: SignupResult)
      requires Valid()
      modifies this
      ensures Valid()
      ensures old(data.email in users) ==> result == SignupFailure(UserExistsError) && unchanged(this)
      ensures old(data.email !in users) ==> users == old(users)[data.email := NewUser(old(nextId), data, passwordHash)]
      ensures old(data.email !in users) ==> forall e :: e in old(users) ==> old(users)[e].id != users[data.email].id
      ensures old(data.email !in users) && !WantsOrganization(data) ==>
        result == SignupResult(true, Some(NewUser(old(nextId), data, passwordHash)), None, None)
        && organizations == old(organizations) && members == old(members)
      ensures old(data.email !in users) && WantsOrganization(data) && Slug(data.organizationName.value) in old(organizations) ==>
        result == SignupFailure(SignupFailedError)
        && organizations == old(organizations) && members == old(members)
      ensures old(data.email !in users) && WantsOrganization(data) && Slug(data.organizationName.value) !in old(organizations) ==>
        result == SignupResult(true, Some(NewUser(old(nextId), data, passwordHash)), Some(NewOrganization(old(nextId) + 1, data)), None)
        && organizations == old(organizations)[Slug(data.organizationName.value) := NewOrganization(old(nextId) + 1, data)]
        && members == old(members) + [Membership(old(nextId) + 1, old(nextId), OrgOwner)]
      ensures result.success && result.organization.Some? ==>
        result.user.Some? && result.organization.value in UserOrganizations(organizations, members, result.user.value.id)
    {
      if data.email in users {
        return SignupFailure(UserExistsError);
      }

      var user := NewUser(nextId, data, passwordHash);
      UserInsertKeepsKeys(users, organizations, nextId, data, passwordHash);
      users := users[data.email := user];
      nextId := nextId + 1;

      if !WantsOrganization(data) {
        return SignupResult(true, Some(user), None, None);
      }

      var organization := CreateOrganization(data.organizationName.value, Slug(data.organizationName.value), user.id);
      if organization.None? {
        return SignupFailure(SignupFailedError);
      }
      return SignupResult(true, Some(user), organization, None);
    }

    /**
      `createOrganization`: insert the organization and an OWNER membership
      of `ownerId` in it. The slug column is unique, so a taken slug makes the
      insert fail (`None`) and nothing changes.
    */
    method CreateOrganization(name: string, slug: string, ownerId: nat) returns (organization: Option<Organization>)
      requires Valid()
      modifies this
      ensures Valid()
      ensures users == old(users)
      ensures slug in old(organizations) ==>
        organization == None && organizations == old(organizations) && members == old(members) && nextId == old(nextId)
      ensures slug !in old(organizations) ==>
        organization == Some(Organization(old(nextId), name, slug))
        && organizations == old(organizations)[slug := organization.value]
        && members == old(members) + [Membership(old(nextId), ownerId, OrgOwner)]
        && nextId == old(nextId) + 1
      ensures organization.Some? ==> organization.value in UserOrganizations(organizations, members, ownerId)
      ensures organization.Some? ==> forall s :: s in old(organizations) ==> old(organizations)[s].id != organization.value.id
    {
      if slug in organizations {
        return None;
      }
      var org := Organization(nextId, name, slug);
      OrganizationInsertKeepsKeys(users, organizations, nextId, name, slug);
      NewOrganizationListed(organizations, members, slug, org, ownerId);
      nextId := nextId + 1;
      organizations := organizations[slug := org];
      members := members + [Membership(org.id, ownerId, OrgOwner)];
      return Some(org);
    }

    /**
      `login`: an unknown email and a wrong password are answered with the
      same error, so a caller cannot tell which one it was. The password
      check is the `passwordMatches(password, hash)` the caller supplies.
    */
    method Login(email: string, password: string, passwordMatches: (string, string) -> bool) returns (result: LoginResult)
      ensures email !in users ==> result == LoginFailure(InvalidCredentials)
      ensures email in users && !passwordMatches(password, users[email].passwordHash) ==>
        result == LoginFailure(InvalidCredentials)
      ensures email in users && passwordMatches(password, users[email].passwordHash) ==>
        result == LoginResult(true, Some(users[email]), UserOrganizations(organizations, members, users[email].id), None)
    {
      if email !in users {
        return LoginFailure(InvalidCredentials);
      }
      var user := users[email];
      if !passwordMatches(password, user.passwordHash) {
        return LoginFailure(InvalidCredentials);
      }
      return LoginResult(true, Some(user), UserOrganizations(organizations, members, user.id), None);
    }
  }
}
