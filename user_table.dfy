/**
 * The rules of the administrators' user table: who may change whose role
 * and to what, who may delete whom, which roles the role selector offers,
 * and the display name, initials and "whole page selected" flag.
 */
module UserTable {
  import opened Wrappers
  import opened Text

  datatype Role = SuperAdmin | Admin | Moderator | User | Guest

  datatype Profile = Profile(firstName: Option<string>, lastName: Option<string>)

  datatype Account = Account(id: string, email: string, role: Role, profile: Option<Profile>)

  /** The viewer's role; the table treats a missing one as ADMIN. */
  function ViewerRole(currentAdminRole: Option<Role>): Role {
    match currentAdminRole
    case None => Admin
    case Some(r) => r
  }

  predicate IsAdminRole(r: Role) {
    r == SuperAdmin || r == Admin
  }

  /** The roles an ADMIN may hand out. */
  const ADMIN_ASSIGNABLE := [User, Moderator, Guest]

  /**
   * `canChangeRole(currentUserRole, targetRole)` for `viewer`: a SUPER_ADMIN
   * may do anything; an ADMIN may not touch an ADMIN or SUPER_ADMIN user and
   * may otherwise assign only USER, MODERATOR or GUEST; nobody else may.
   */
  function CanChangeRole(viewer: Role, currentUserRole: Role, targetRole: Role): bool {
    if viewer == SuperAdmin then true
    else if viewer == Admin then
      if currentUserRole == Admin || currentUserRole == SuperAdmin then false
      else targetRole in ADMIN_ASSIGNABLE
    else false
  }

  /** `canDeleteUser`: a SUPER_ADMIN may delete anyone, an ADMIN anyone below the admins, nobody else anyone. */
  function CanDeleteUser(viewer: Role, user: Role): bool {
    if viewer == SuperAdmin then true
    else if viewer == Admin then user != SuperAdmin && user != Admin
    else false
  }

  /** `getAvailableRoles`: the options of a user's role selector. */
  function AvailableRoles(viewer: Role, user: Role): seq<Role> {
    if viewer == SuperAdmin then [SuperAdmin, Admin, Moderator, User, Guest]
    else if viewer == Admin then
      if user == Admin || user == SuperAdmin then [user] else ADMIN_ASSIGNABLE
    else [User]
  }

  /** The decision table of `canChangeRole`, case by case. */
  lemma ChangeRoleTable(viewer: Role, current: Role, target: Role)
    ensures viewer == SuperAdmin ==> CanChangeRole(viewer, current, target)
    ensures !IsAdminRole(viewer) ==> !CanChangeRole(viewer, current, target)
    ensures viewer == Admin && IsAdminRole(current) ==> !CanChangeRole(viewer, current, target)
    ensures viewer == Admin && !IsAdminRole(current) ==>
      (CanChangeRole(viewer, current, target) <==> !IsAdminRole(target))
  {
  }

  /**
   * A table given no viewer role decides as an ADMIN: it may manage, delete
   * and re-role exactly the users below the admins, only to USER, MODERATOR
   * or GUEST, and an admin's selector offers only that admin's own role.
   */
  lemma MissingViewerIsAdmin(current: Role, target: Role)
    ensures ViewerRole(None) == Admin
    ensures CanChangeRole(ViewerRole(None), current, target) <==> !IsAdminRole(current) && !IsAdminRole(target)
    ensures CanDeleteUser(ViewerRole(None), current) <==> !IsAdminRole(current)
    ensures AvailableRoles(ViewerRole(None), current) == if IsAdminRole(current) then [current] else ADMIN_ASSIGNABLE
  {
  }

  /** No one below SUPER_ADMIN can make anyone an admin. */
  lemma OnlySuperAdminPromotes(viewer: Role, current: Role, target: Role)
    requires IsAdminRole(target) && CanChangeRole(viewer, current, target)
    ensures viewer == SuperAdmin
  {
  }

  /** A user may be deleted exactly when their role selector is enabled. */
  lemma DeleteMatchesRoleSelector(viewer: Role, user: Role)
    ensures CanDeleteUser(viewer, user) == CanChangeRole(viewer, user, user)
  {
  }

  /**
   * Every option the selector offers is enabled exactly when the user may be
   * managed at all: the selector is either fully usable or wholly disabled.
   */
  lemma OptionsEnabledInLockstep(viewer: Role, user: Role)
    ensures forall r :: r in AvailableRoles(viewer, user) ==>
      (CanChangeRole(viewer, user, r) <==> CanDeleteUser(viewer, user))
  {
  }

  /**
   * The options are distinct; they hold the user's current role except when
   * a viewer below ADMIN looks at someone other than a USER; and an ADMIN
   * is never offered an admin role for a user it may manage.
   */
  lemma AvailableRolesShape(viewer: Role, user: Role)
    ensures var roles := AvailableRoles(viewer, user);
      && (forall i, j :: 0 <= i < j < |roles| ==> roles[i] != roles[j])
      && (user in roles <==> IsAdminRole(viewer) || user == User)
      && (viewer == Admin && CanDeleteUser(viewer, user) ==> forall r :: r in roles ==> !IsAdminRole(r))
  {
  }

  // ---------------------------------------------------------------------------
  // Display name and initials

  predicate HasFullName(u: Account) {
    u.profile.Some? && Truthy(u.profile.value.firstName) && Truthy(u.profile.value.lastName)
  }

  /** `getUserName`: `first last` when both names are given, else the e-mail's part before the first `@`. */
  function UserName(u: Account): string {
    if HasFullName(u) then u.profile.value.firstName.value + " " + u.profile.value.lastName.value
    else Split(u.email, '@')[0]
  }

  /** Without both names the display name is the e-mail up to (not including) its first `@`. */
  lemma UserNameFromEmail(u: Account)
    requires !HasFullName(u)
    ensures var r := UserName(u);
      && r == u.email[..|r|] && '@' !in r
      && (|r| < |u.email| ==> u.email[|r|] == '@')
  {
    var r := UserName(u);
    match IndexOf(u.email, '@')
    case None =>
    case Some(i) =>
      assert r == u.email[..i];
  }

  /** `parts.map(part => part.charAt(0)).join('')`: the first character of each non-empty part. */
  function FirstChars(parts: seq<string>): (r: string)
    ensures |r| <= |parts|
    ensures forall k :: 0 <= k < |r| ==>
      exists j :: 0 <= j < |parts| && parts[j] != "" && r[k] == parts[j][0]
  {
    if parts == [] then ""
    else
      var rest := FirstChars(parts[1..]);
      var head := if parts[0] == "" then "" else [parts[0][0]];
      var r := head + rest;
      assert forall k :: |head| <= k < |r| ==> r[k] == rest[k - |head|];
      assert forall j :: 0 <= j < |parts| - 1 ==> parts[1..][j] == parts[j + 1];
      r
  }

  /** Each part contributes its first character, or nothing when it is empty. */
  lemma FirstCharsOfOne(p: string)
    ensures FirstChars([p]) == (if p == "" then "" else [p[0]])
  {
  }

  /** The first characters of two lists of parts are those of each list, in order. */
  lemma {:induction false} FirstCharsConcat(a: seq<string>, b: seq<string>)
    ensures FirstChars(a + b) == FirstChars(a) + FirstChars(b)
  {
    if a != [] {
      var head := if a[0] == "" then "" else [a[0][0]];
      assert (a + b)[0] == a[0] && (a + b)[1..] == a[1..] + b;
      assert FirstChars(a + b) == head + FirstChars(a[1..] + b);
      assert FirstChars(a) == head + FirstChars(a[1..]);
      FirstCharsConcat(a[1..], b);
    } else {
      assert a + b == b;
    }
  }

  /** `c` is the upper-cased first character of one of the non-empty parts. */
  predicate InitialOfSomePart(c: char, parts: seq<string>) {
    exists j :: 0 <= j < |parts| && parts[j] != "" && c == UpperChar(parts[j][0])
  }

  lemma UpperFirstChars(parts: seq<string>)
    ensures forall k :: 0 <= k < |ToUpper(FirstChars(parts))| ==>
      InitialOfSomePart(ToUpper(FirstChars(parts))[k], parts)
  {
    var firsts := FirstChars(parts);
    var t := ToUpper(firsts);
    forall k | 0 <= k < |t| ensures InitialOfSomePart(t[k], parts) {
      var j :| 0 <= j < |parts| && parts[j] != "" && firsts[k] == parts[j][0];
      assert t[k] == UpperChar(firsts[k]);
    }
  }

  lemma UpperHasNoLower(s: string)
    ensures forall k :: 0 <= k < |s| ==> !IsLowerAscii(ToUpper(s)[k])
  {
  }

  /**
   * `getUserInitials`: at most two characters, none a lower-case letter,
   * each the upper-cased first character of a space-separated part of the
   * display name; they are the first two of those characters, in order.
   */
  function UserInitials(u: Account): (r: string)
    ensures |r| <= 2
    ensures var t := ToUpper(FirstChars(Split(UserName(u), ' ')));
      r == t[..if |t| <= 2 then |t| else 2]
    ensures forall k :: 0 <= k < |r| ==> !IsLowerAscii(r[k])
    ensures forall k :: 0 <= k < |r| ==> InitialOfSomePart(r[k], Split(UserName(u), ' '))
  {
    var parts := Split(UserName(u), ' ');
    var firsts := FirstChars(parts);
    var t := ToUpper(firsts);
    UpperHasNoLower(firsts);
    UpperFirstChars(parts);
    var r := if |t| <= 2 then t else t[..2];
    assert forall k :: 0 <= k < |r| ==> r[k] == t[k];
    r
  }

  /** For a two-word name the initials are the two upper-cased first letters. */
  lemma InitialsOfFullName(u: Account)
    requires HasFullName(u)
    requires ' ' !in u.profile.value.firstName.value && ' ' !in u.profile.value.lastName.value
    ensures var first, last := u.profile.value.firstName.value, u.profile.value.lastName.value;
      UserInitials(u) == [UpperChar(first[0]), UpperChar(last[0])]
  {
    var first, last := u.profile.value.firstName.value, u.profile.value.lastName.value;
    assert Join([first, last], [' ']) == first + " " + last;
    SplitJoin([first, last], ' ');
    var parts := [first, last];
    assert parts[1..] == [last];
    assert FirstChars(parts) == [first[0], last[0]];
  }

  // ---------------------------------------------------------------------------
  // Selection

  /** `allCurrentPageSelected`: the page has users and every one of them is selected. */
  predicate AllCurrentPageSelected(pageIds: seq<string>, selected: seq<string>) {
    |pageIds| > 0 && forall k :: 0 <= k < |pageIds| ==> pageIds[k] in selected
  }

  /**
   * The header checkbox is checked exactly when the page has users and none
   * of them is missing from the selection; selecting more ids never clears it.
   */
  lemma AllCurrentPageSelectedMeaning(pageIds: seq<string>, selected: seq<string>, more: seq<string>)
    ensures AllCurrentPageSelected(pageIds, selected) <==>
      pageIds != [] && forall id :: id in pageIds ==> id in selected
    ensures AllCurrentPageSelected(pageIds, selected) ==> AllCurrentPageSelected(pageIds, selected + more)
  {
  }
}
