/**
 * The presentation helpers of the audit-log screen: the colour and icon of
 * an action, its display text, and the summary and request view built from
 * a log entry recorded in the old details format.
 */
module AuditLogs {
  import opened Wrappers
  import opened Text

  // ---------------------------------------------------------------------------
  // Colour and icon

  const DANGER_COLOR := "#ef4444"
  const WARNING_COLOR := "#f59e0b"
  const INFO_COLOR := "#3b82f6"
  const SAFE_COLOR := "#10b981"
  const NEUTRAL_COLOR := "#6b7280"

  const DANGEROUS_ACTIONS := ["DELETE_USER", "BULK_DELETE_USERS", "FORCE_DELETE_USER"]
  const WARNING_ACTIONS := ["UPDATE_USER", "BULK_UPDATE_USERS", "IMPORT_USERS"]
  const INFO_ACTIONS := ["CREATE_USER", "RESTORE_USER", "VERIFY_EMAIL", "UNLOCK_USER"]
  const SAFE_ACTIONS := ["EXPORT_USERS", "RESET_PASSWORD"]

  /** `getActionColor`: the first list holding the action decides its colour; grey for any other action. */
  function ActionColor(action: string): (r: string)
    ensures r in {DANGER_COLOR, WARNING_COLOR, INFO_COLOR, SAFE_COLOR, NEUTRAL_COLOR}
  {
    if action in DANGEROUS_ACTIONS then DANGER_COLOR
    else if action in WARNING_ACTIONS then WARNING_COLOR
    else if action in INFO_ACTIONS then INFO_COLOR
    else if action in SAFE_ACTIONS then SAFE_COLOR
    else NEUTRAL_COLOR
  }

  /**
   * The four lists do not overlap, so each colour is given exactly to the
   * actions of its own list, whatever order they are tested in.
   */
  lemma ColorIffListed(action: string)
    ensures ActionColor(action) == DANGER_COLOR <==> action in DANGEROUS_ACTIONS
    ensures ActionColor(action) == WARNING_COLOR <==> action in WARNING_ACTIONS
    ensures ActionColor(action) == INFO_COLOR <==> action in INFO_ACTIONS
    ensures ActionColor(action) == SAFE_COLOR <==> action in SAFE_ACTIONS
    ensures ActionColor(action) == NEUTRAL_COLOR <==>
      action !in DANGEROUS_ACTIONS + WARNING_ACTIONS + INFO_ACTIONS + SAFE_ACTIONS
  {
  }

  /** Every red action is a deletion: its name mentions DELETE. */
  lemma RedActionsDelete(action: string)
    requires ActionColor(action) == DANGER_COLOR
    ensures Contains(action, "DELETE")
  {
    var i := if action == "DELETE_USER" then 0 else if action == "BULK_DELETE_USERS" then 5 else 6;
    assert OccursAt("DELETE", action, i);
  }

  const WARNING_SIGN := "⚠️"
  const PENCIL := "✏️"
  const WASTEBASKET := "\U{1F5D1}️"
  const DEFAULT_ICON := "\U{1F4DD}"

  /** `getActionIcon`. */
  function ActionIcon(action: string): (r: string)
    ensures |r| >= 1
  {
    match action
    case "CREATE_USER" => "\U{1F195}"
    case "UPDATE_USER" => PENCIL
    case "DELETE_USER" => WASTEBASKET
    case "RESTORE_USER" => "\U{1F504}"
    case "BULK_DELETE_USERS" => WARNING_SIGN + WASTEBASKET
    case "BULK_UPDATE_USERS" => WARNING_SIGN + PENCIL
    case "UNLOCK_USER" => "\U{1F513}"
    case "VERIFY_EMAIL" => "✅"
    case "IMPORT_USERS" => "\U{1F4E5}"
    case "EXPORT_USERS" => "\U{1F4E4}"
    case "RESET_PASSWORD" => "\U{1F511}"
    case _ => DEFAULT_ICON
  }

  const ICONED_ACTIONS := ["CREATE_USER", "UPDATE_USER", "DELETE_USER", "RESTORE_USER", "BULK_DELETE_USERS",
                           "BULK_UPDATE_USERS", "UNLOCK_USER", "VERIFY_EMAIL", "IMPORT_USERS", "EXPORT_USERS",
                           "RESET_PASSWORD"]

  /**
   * Exactly the eleven actions with a case of their own get an icon other
   * than the default, and a bulk action's icon is the warning sign followed
   * by the icon of its single-user action.
   */
  lemma IconIffListed(a: string)
    ensures a in ICONED_ACTIONS <==> ActionIcon(a) != DEFAULT_ICON
    ensures ActionIcon("BULK_DELETE_USERS") == WARNING_SIGN + ActionIcon("DELETE_USER")
    ensures ActionIcon("BULK_UPDATE_USERS") == WARNING_SIGN + ActionIcon("UPDATE_USER")
  {
  }

  /** Every action with an icon of its own also has a colour of its own; FORCE_DELETE_USER is red with the default icon. */
  lemma IconedActionsAreColoured(action: string)
    ensures ActionIcon(action) != DEFAULT_ICON ==> ActionColor(action) != NEUTRAL_COLOR
    ensures ActionColor("FORCE_DELETE_USER") == DANGER_COLOR && ActionIcon("FORCE_DELETE_USER") == DEFAULT_ICON
  {
    IconIffListed(action);
  }

  // ---------------------------------------------------------------------------
  // Display text

  /** `\w` without the underscore: an ASCII letter or digit. */
  predicate IsAlnum(c: char) {
    IsUpperAscii(c) || IsLowerAscii(c) || IsDigit(c)
  }

  /** `\w`. */
  predicate IsWordChar(c: char) {
    IsAlnum(c) || c == '_'
  }

  /** `.replace(/_/g, ' ')`. */
  function UnderscoresToSpaces(s: string): (r: string)
    ensures |r| == |s| && '_' !in r
  {
    seq(|s|, k requires 0 <= k < |s| => if s[k] == '_' then ' ' else s[k])
  }

  /** Position `k` of `s` starts a word: a word character with none just before it. */
  predicate WordStartAt(s: string, k: int)
    requires 0 <= k < |s|
  {
    IsWordChar(s[k]) && (k == 0 || !IsWordChar(s[k - 1]))
  }

  /** `.replace(/\b\w/g, l => l.toUpperCase())`. */
  function CapitalizeWords(s: string): (r: string)
    ensures |r| == |s|
  {
    seq(|s|, k requires 0 <= k < |s| => if WordStartAt(s, k) then UpperChar(s[k]) else s[k])
  }

  /** `formatActionText`. */
  function FormatActionText(action: string): (r: string)
    ensures |r| == |action| && '_' !in r
  {
    CapitalizeWords(UnderscoresToSpaces(ToLower(action)))
  }

  /** What the ASCII case mappings do to the kinds of character `\w` tells apart. */
  lemma CaseFacts(c: char)
    ensures LowerChar(c) == '_' <==> c == '_'
    ensures IsAlnum(LowerChar(c)) <==> IsAlnum(c)
    ensures IsAlnum(UpperChar(c)) <==> IsAlnum(c)
    ensures UpperChar(LowerChar(c)) == UpperChar(c)
    ensures LowerChar(UpperChar(c)) == LowerChar(c)
    ensures LowerChar(LowerChar(c)) == LowerChar(c)
    ensures UpperChar(UpperChar(c)) == UpperChar(c)
    ensures LowerChar(' ') == ' '
  {
  }

  /** Position `k` of `s` holds a letter or digit that no letter or digit precedes. */
  predicate AlnumStartAt(s: string, k: int)
    requires 0 <= k < |s|
  {
    IsAlnum(s[k]) && (k == 0 || !IsAlnum(s[k - 1]))
  }

  /**
   * The display character for position `k` of an action, in terms of the
   * action itself: an underscore becomes a space, a letter or digit that
   * starts a word is upper-cased, every other character lower-cased.
   */
  function DisplayChar(action: string, k: int): char
    requires 0 <= k < |action|
  {
    if action[k] == '_' then ' '
    else if AlnumStartAt(action, k) then UpperChar(action[k])
    else LowerChar(action[k])
  }

  lemma FormatActionTextChars(action: string)
    ensures forall k :: 0 <= k < |action| ==> FormatActionText(action)[k] == DisplayChar(action, k)
  {
    var low := ToLower(action);
    var spaced := UnderscoresToSpaces(low);
    forall k | 0 <= k < |action|
      ensures IsWordChar(spaced[k]) == IsAlnum(action[k])
    {
      CaseFacts(action[k]);
      assert low[k] == LowerChar(action[k]);
    }
    forall k | 0 <= k < |action|
      ensures FormatActionText(action)[k] == DisplayChar(action, k)
    {
      CaseFacts(action[k]);
      assert low[k] == LowerChar(action[k]);
      assert WordStartAt(spaced, k) <==> AlnumStartAt(action, k);
    }
  }

  /** The display text is in title case: upper case starts each word, lower case continues it. */
  predicate TitleCase(s: string) {
    forall k :: 0 <= k < |s| ==>
      (IsLowerAscii(s[k]) ==> k > 0 && IsAlnum(s[k - 1]))
      && (IsUpperAscii(s[k]) ==> k == 0 || !IsAlnum(s[k - 1]))
  }

  lemma FormatActionTextIsTitleCase(action: string)
    ensures TitleCase(FormatActionText(action))
  {
    var r := FormatActionText(action);
    FormatActionTextChars(action);
    forall k | 0 <= k < |r|
      ensures (IsLowerAscii(r[k]) ==> k > 0 && IsAlnum(r[k - 1]))
      ensures (IsUpperAscii(r[k]) ==> k == 0 || !IsAlnum(r[k - 1]))
    {
      DisplayCharKeepsAlnum(action, k);
      if k > 0 {
        DisplayCharKeepsAlnum(action, k - 1);
      }
      CaseFacts(action[k]);
    }
  }

  /** A display character is a letter or digit exactly when the action's character is. */
  lemma DisplayCharKeepsAlnum(action: string, k: int)
    requires 0 <= k < |action|
    ensures IsAlnum(DisplayChar(action, k)) <==> IsAlnum(action[k])
  {
    CaseFacts(action[k]);
  }

  /** Formatting an already formatted text changes nothing. */
  lemma FormatActionTextIdempotent(action: string)
    ensures FormatActionText(FormatActionText(action)) == FormatActionText(action)
  {
    var r := FormatActionText(action);
    var rr := FormatActionText(r);
    FormatActionTextChars(action);
    FormatActionTextChars(r);
    forall k | 0 <= k < |r|
      ensures IsAlnum(r[k]) <==> IsAlnum(action[k])
    {
    }
    forall k | 0 <= k < |r|
      ensures rr[k] == r[k]
    {
    }
  }

  lemma FormatActionTextExample()
    ensures FormatActionText("BULK_DELETE_USERS") == "Bulk Delete Users"
    ensures FormatActionText("RESET_PASSWORD") == "Reset Password"
  {
    FormatsAs("BULK_DELETE_USERS", "Bulk Delete Users");
    FormatsAs("RESET_PASSWORD", "Reset Password");
  }

  /** The display text is known once every position's display character is. */
  lemma FormatsAs(action: string, expected: string)
    requires |expected| == |action| && forall k :: 0 <= k < |action| ==> DisplayChar(action, k) == expected[k]
    ensures FormatActionText(action) == expected
  {
    FormatActionTextChars(action);
  }

  // ---------------------------------------------------------------------------
  // Entries in the old details format

  /**
   * The fields of a recorded request body the screen reads; `otherKeys`
   * counts the keys it does not read. `users` and `userIds` are present only
   * when they hold arrays.
   */
  datatype RequestBody = RequestBody(
    email: Option<string>,
    role: Option<string>,
    isActive: Option<bool>,
    firstName: Option<string>,
    lastName: Option<string>,
    userIds: Option<seq<string>>,
    users: Option<seq<string>>,
    sendWelcomeEmail: Option<bool>,
    updateExisting: Option<bool>,
    otherKeys: nat)

  datatype Details = Details(action: Option<string>, requestBody: Option<RequestBody>)

  /** `field || ''`. */
  function OrEmpty(field: Option<string>): string {
    if Truthy(field) then field.value else ""
  }

  const NO_ACTION_SUMMARY := "Action performed"

  /** `${verb} ${count} user` with `s` unless the count is exactly 1. */
  function CountPhrase(verb: string, count: nat): string {
    verb + " " + DecimalString(count) + " " + (if count == 1 then "user" else "users")
  }

  /** A count phrase reads back as three words, the middle one the count in digits. */
  lemma CountPhraseReadsBack(verb: string, count: nat)
    requires ' ' !in verb
    ensures var words := Split(CountPhrase(verb, count), ' ');
      && |words| == 3 && words[0] == verb
      && ParseInt(words[1]) == Some(count)
      && (words[2] == "user" <==> count == 1)
  {
    var digits := DecimalString(count);
    DigitsHaveNoSpace(digits);
    ThreeWords(verb, digits, if count == 1 then "user" else "users");
    ParseIntDecimalString(count);
  }

  lemma DigitsHaveNoSpace(d: string)
    requires AllDigits(d)
    ensures ' ' !in d
  {
    forall k | 0 <= k < |d| ensures d[k] != ' ' {
      assert IsDigit(d[k]);
    }
  }

  /** Three words without spaces, joined by single spaces, split back into themselves. */
  lemma ThreeWords(a: string, b: string, c: string)
    requires ' ' !in a && ' ' !in b && ' ' !in c
    ensures Split(a + " " + b + " " + c, ' ') == [a, b, c]
  {
    JoinThree(a, b, c);
    SplitJoin([a, b, c], ' ');
  }

  lemma JoinThree(a: string, b: string, c: string)
    ensures Join([a, b, c], [' ']) == a + " " + b + " " + c
  {
    var parts := [a, b, c];
    assert parts[1..] == [b, c];
    assert parts[1..][1..] == [c];
    assert Join([b, c], [' ']) == b + " " + c;
  }

  /**
   * `generateSummaryFromOldFormat`: an imported user list wins over a list
   * of ids, which wins over an e-mail address; deletions are recognised by
   * DELETE anywhere in the action name.
   */
  function SummaryFromOldFormat(d: Details): (r: string)
    ensures d.requestBody.None? ==> r == NO_ACTION_SUMMARY
    ensures d.requestBody.Some? && d.requestBody.value.users.Some? ==>
      r == CountPhrase("Imported", |d.requestBody.value.users.value|)
  {
    match d.requestBody
    case None => NO_ACTION_SUMMARY
    case Some(req) =>
      if req.users.Some? then CountPhrase("Imported", |req.users.value|)
      else if req.userIds.Some? then
        if d.action.Some? && Contains(d.action.value, "DELETE") then CountPhrase("Deleted", |req.userIds.value|)
        else CountPhrase("Processed", |req.userIds.value|)
      else if Truthy(req.email) then
        if d.action == Some("CREATE_USER") then "Created user: " + req.email.value
        else if d.action == Some("UPDATE_USER") then "Updated user: " + req.email.value
        else "User: " + req.email.value
      else NO_ACTION_SUMMARY
  }

  /**
   * Without an imported user list, a list of ids is summed up by its
   * length: the verb is Deleted when the action mentions DELETE and
   * Processed otherwise, and the noun is singular only for one id.
   */
  lemma SummaryOfIds(d: Details)
    requires d.requestBody.Some? && d.requestBody.value.users.None? && d.requestBody.value.userIds.Some?
    ensures var words := Split(SummaryFromOldFormat(d), ' ');
      && |words| == 3 && ParseInt(words[1]) == Some(|d.requestBody.value.userIds.value|)
      && words[0] == (if d.action.Some? && Contains(d.action.value, "DELETE") then "Deleted" else "Processed")
      && (words[2] == "user" <==> |d.requestBody.value.userIds.value| == 1)
  {
    var n := |d.requestBody.value.userIds.value|;
    var deleting := d.action.Some? && Contains(d.action.value, "DELETE");
    var verb := if deleting then "Deleted" else "Processed";
    assert SummaryFromOldFormat(d) == CountPhrase(verb, n);
    CountPhraseReadsBack(verb, n);
  }

  /** An imported user list is summed up by its length, whatever else the body holds; the noun is singular only for one user. */
  lemma SummaryOfUsers(d: Details)
    requires d.requestBody.Some? && d.requestBody.value.users.Some?
    ensures var words := Split(SummaryFromOldFormat(d), ' ');
      && |words| == 3 && words[0] == "Imported" && ParseInt(words[1]) == Some(|d.requestBody.value.users.value|)
      && (words[2] == "user" <==> |d.requestBody.value.users.value| == 1)
  {
    CountPhraseReadsBack("Imported", |d.requestBody.value.users.value|);
  }

  /**
   * With neither list, the summary names the e-mail address when there is
   * one, after a prefix chosen by the action, and otherwise says nothing
   * specific.
   */
  lemma SummaryOfEmail(d: Details)
    requires d.requestBody.Some? && d.requestBody.value.users.None? && d.requestBody.value.userIds.None?
    ensures var req, r := d.requestBody.value, SummaryFromOldFormat(d);
      && (!Truthy(req.email) ==> r == NO_ACTION_SUMMARY)
      && (Truthy(req.email) && d.action == Some("CREATE_USER") ==> r == "Created user: " + req.email.value)
      && (Truthy(req.email) && d.action == Some("UPDATE_USER") ==> r == "Updated user: " + req.email.value)
      && (Truthy(req.email) && d.action != Some("CREATE_USER") && d.action != Some("UPDATE_USER") ==>
            r == "User: " + req.email.value)
  {
  }

  /** How many keys the body has. */
  function KeyCount(b: RequestBody): nat {
    (if b.email.Some? then 1 else 0) + (if b.role.Some? then 1 else 0) + (if b.isActive.Some? then 1 else 0)
    + (if b.firstName.Some? then 1 else 0) + (if b.lastName.Some? then 1 else 0)
    + (if b.userIds.Some? then 1 else 0) + (if b.users.Some? then 1 else 0)
    + (if b.sendWelcomeEmail.Some? then 1 else 0) + (if b.updateExisting.Some? then 1 else 0)
    + b.otherKeys
  }

  /** The request view, key by key in the order the keys are filled in. */
  datatype Formatted = Formatted(
    email: Option<string>,
    role: Option<string>,
    status: Option<string>,
    name: Option<string>,
    usersCount: Option<nat>,
    userIds: Option<seq<string>>,
    note: Option<string>,
    importCount: Option<nat>,
    sendWelcomeEmail: Option<bool>,
    updateExisting: Option<bool>)

  const EMPTY_VIEW := Formatted(None, None, None, None, None, None, None, None, None, None)
  const NO_REQUEST_DATA := "No request data"
  /** How many ids the view lists before summing up the rest. */
  const PREVIEW_IDS: nat := 3

  function MoreNote(rest: nat): string {
    "...and " + DecimalString(rest) + " more"
  }

  /** The note reads back as three words, the middle one the number of ids left out. */
  lemma MoreNoteReadsBack(rest: nat)
    ensures var words := Split(MoreNote(rest), ' ');
      |words| == 3 && words[0] == "...and" && ParseInt(words[1]) == Some(rest) && words[2] == "more"
  {
    var digits := DecimalString(rest);
    DigitsHaveNoSpace(digits);
    ThreeWords("...and", digits, "more");
    assert MoreNote(rest) == "...and" + " " + digits + " " + "more";
    ParseIntDecimalString(rest);
  }

  /** The body is present and has at least one key. */
  predicate HasData(body: Option<RequestBody>) {
    body.Some? && KeyCount(body.value) > 0
  }

  /**
   * The id part of the request view: the full count, the first three ids
   * and, beyond three, a note with the number left out.
   */
  method PreviewIds(ids: seq<string>) returns (count: nat, preview: seq<string>, note: Option<string>)
    ensures count == |ids|
    ensures |preview| == (if |ids| < PREVIEW_IDS then |ids| else PREVIEW_IDS) && preview == ids[..|preview|]
    ensures note.Some? <==> |ids| > PREVIEW_IDS
    ensures note.Some? ==> note.value == MoreNote(|ids| - PREVIEW_IDS)
  {
    count := |ids|;
    preview := if |ids| < PREVIEW_IDS then ids else ids[..PREVIEW_IDS];
    note := None;
    if |ids| > PREVIEW_IDS {
      note := Some(MoreNote(|ids| - PREVIEW_IDS));
    }
  }

  /**
   * `formatOldRequest`: a missing body or one with no keys gives only the
   * note "No request data"; otherwise each key is filled in when its field
   * is given (the e-mail, role and name only when not empty), and a list of
   * ids gives its full count, its first three ids and, beyond three, a note
   * with the number left out.
   */
  method FormatOldRequest(body: Option<RequestBody>) returns (f: Formatted)
    ensures !HasData(body) ==> f == EMPTY_VIEW.(note := Some(NO_REQUEST_DATA))
    ensures HasData(body) ==> (f.email.Some? <==> Truthy(body.value.email)) && (f.email.Some? ==> f.email == body.value.email)
    ensures HasData(body) ==> (f.role.Some? <==> Truthy(body.value.role)) && (f.role.Some? ==> f.role == body.value.role)
    ensures HasData(body) ==> (f.status.Some? <==> body.value.isActive.Some?)
    ensures HasData(body) && f.status.Some? ==>
      f.status.value in {"Active", "Inactive"} && (f.status.value == "Active" <==> body.value.isActive.value)
    ensures HasData(body) ==> (f.name.Some? <==> Truthy(body.value.firstName) || Truthy(body.value.lastName))
    ensures HasData(body) && f.name.Some? ==>
      f.name.value == Trim(OrEmpty(body.value.firstName) + " " + OrEmpty(body.value.lastName))
    ensures HasData(body) ==> (f.usersCount.Some? <==> body.value.userIds.Some?) && (f.userIds.Some? <==> body.value.userIds.Some?)
    ensures HasData(body) && body.value.userIds.Some? ==> f.usersCount.value == |body.value.userIds.value|
    ensures HasData(body) && body.value.userIds.Some? ==>
      |f.userIds.value| == (if |body.value.userIds.value| < PREVIEW_IDS then |body.value.userIds.value| else PREVIEW_IDS)
      && f.userIds.value == body.value.userIds.value[..|f.userIds.value|]
    ensures HasData(body) ==> (f.note.Some? <==> body.value.userIds.Some? && |body.value.userIds.value| > PREVIEW_IDS)
    ensures HasData(body) && f.note.Some? ==> f.note.value == MoreNote(|body.value.userIds.value| - PREVIEW_IDS)
    ensures HasData(body) ==> (f.importCount.Some? <==> body.value.users.Some?)
    ensures HasData(body) && f.importCount.Some? ==> f.importCount.value == |body.value.users.value|
    ensures HasData(body) ==> f.sendWelcomeEmail == body.value.sendWelcomeEmail && f.updateExisting == body.value.updateExisting
  {
    if !HasData(body) {
      return EMPTY_VIEW.(note := Some(NO_REQUEST_DATA));
    }
    var b := body.value;
    var email, role, status, name := FormatPerson(b);
    var usersCount, userIds, note := None, None, None;
    if b.userIds.Some? {
      var count, preview;
      count, preview, note := PreviewIds(b.userIds.value);
      usersCount, userIds := Some(count), Some(preview);
    }
    var importCount, sendWelcomeEmail, updateExisting := FormatImport(b);
    f := Formatted(email, role, status, name, usersCount, userIds, note, importCount, sendWelcomeEmail, updateExisting);
  }

  /** The keys about one user: e-mail, role, status and name. */
  method FormatPerson(b: RequestBody) returns (email: Option<string>, role: Option<string>, status: Option<string>, name: Option<string>)
    ensures (email.Some? <==> Truthy(b.email)) && (email.Some? ==> email == b.email)
    ensures (role.Some? <==> Truthy(b.role)) && (role.Some? ==> role == b.role)
    ensures status.Some? <==> b.isActive.Some?
    ensures status.Some? ==> status.value in {"Active", "Inactive"} && (status.value == "Active" <==> b.isActive.value)
    ensures name.Some? <==> Truthy(b.firstName) || Truthy(b.lastName)
    ensures name.Some? ==> name.value == Trim(OrEmpty(b.firstName) + " " + OrEmpty(b.lastName))
  {
    email, role, status, name := None, None, None, None;
    if Truthy(b.email) {
      email := b.email;
    }
    if Truthy(b.role) {
      role := b.role;
    }
    if b.isActive.Some? {
      status := Some(if b.isActive.value then "Active" else "Inactive");
    }
    if Truthy(b.firstName) || Truthy(b.lastName) {
      name := Some(Trim(OrEmpty(b.firstName) + " " + OrEmpty(b.lastName)));
    }
  }

  /** The keys about an import: the number of users and the two flags, each when given. */
  method FormatImport(b: RequestBody) returns (importCount: Option<nat>, sendWelcomeEmail: Option<bool>, updateExisting: Option<bool>)
    ensures (importCount.Some? <==> b.users.Some?) && (importCount.Some? ==> importCount.value == |b.users.value|)
    ensures sendWelcomeEmail == b.sendWelcomeEmail && updateExisting == b.updateExisting
  {
    importCount, sendWelcomeEmail, updateExisting := None, None, None;
    if b.users.Some? {
      importCount := Some(|b.users.value|);
    }
    if b.sendWelcomeEmail.Some? {
      sendWelcomeEmail := b.sendWelcomeEmail;
    }
    if b.updateExisting.Some? {
      updateExisting := b.updateExisting;
    }
  }
}
