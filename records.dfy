/** The dictionary built for every user found: `name`, `username` and
    `phone`, each derived from the Telegram `User` by the same three
    expressions in every parsing mode. */
module Records {
  import opened Platform

  /** The `{'name', 'username', 'phone'}` dictionary of one user. */
  datatype UserRecord = UserRecord(name: string, username: string, phone: string)

  /** The name used when a user has neither first nor last name. */
  const NoName: string := "Нет имени"

  /** Python's `str.isspace` on one character. */
  predicate IsSpace(c: char) {
    c == ' ' || ('\t' <= c <= '\r') || ('\U{1C}' <= c <= '\U{1F}')
    || c == '\U{85}' || c == '\U{A0}' || c == '\U{1680}'
    || ('\U{2000}' <= c <= '\U{200A}') || c == '\U{2028}' || c == '\U{2029}'
    || c == '\U{202F}' || c == '\U{205F}' || c == '\U{3000}'
  }

  ghost predicate AllSpace(s: string) {
    forall i :: 0 <= i < |s| ==> IsSpace(s[i])
  }

  /** A non-empty string with no whitespace at either end. */
  ghost predicate Trimmed(s: string) {
    s != [] && !IsSpace(s[0]) && !IsSpace(s[|s| - 1])
  }

  /** The length of the whitespace run at the start of `s`. */
  function LeadingSpaces(s: string): (n: nat)
    ensures n <= |s|
    ensures forall i :: 0 <= i < n ==> IsSpace(s[i])
    ensures n < |s| ==> !IsSpace(s[n])
  {
    if |s| == 0 || !IsSpace(s[0]) then 0 else 1 + LeadingSpaces(s[1..])
  }

  /** The length of the whitespace run at the end of `s`. */
  function TrailingSpaces(s: string): (n: nat)
    ensures n <= |s|
    ensures forall i :: |s| - n <= i < |s| ==> IsSpace(s[i])
    ensures n < |s| ==> !IsSpace(s[|s| - 1 - n])
  {
    if |s| == 0 || !IsSpace(s[|s| - 1]) then 0 else 1 + TrailingSpaces(s[..|s| - 1])
  }

  /** Python's `s.strip()` with no argument: `s` without its leading and
      trailing whitespace. */
  function Strip(s: string): (r: string)
    ensures r == [] <==> AllSpace(s)
    ensures r != [] ==> Trimmed(r)
    ensures LeadingSpaces(s) + |r| <= |s|
    ensures r == s[LeadingSpaces(s)..LeadingSpaces(s) + |r|]
    ensures AllSpace(s[LeadingSpaces(s) + |r|..])
  {
    var lo := LeadingSpaces(s);
    if lo == |s| then
      []
    else
      var t := TrailingSpaces(s);
      s[lo..|s| - t]
  }

  /** Python's `x or ''` on an optional string. */
  function OrEmpty(o: Option<string>): string {
    if o.Some? then o.value else ""
  }

  /** The first and last name joined by one blank, each `or ''`, with
      surrounding whitespace stripped: `f"{first_name or ''} {last_name or ''}".strip()`. */
  function FullName(u: User): string {
    Strip(OrEmpty(u.firstName) + " " + OrEmpty(u.lastName))
  }

  /** The stripped full name, or `'Нет имени'` when that is empty
      (`full_name or 'Нет имени'`). */
  function DisplayName(u: User): (name: string)
    ensures name != []
    ensures AllSpace(OrEmpty(u.firstName)) && AllSpace(OrEmpty(u.lastName)) ==> name == NoName
    ensures !(AllSpace(OrEmpty(u.firstName)) && AllSpace(OrEmpty(u.lastName))) ==>
              name == FullName(u) && Trimmed(name)
  {
    FullNameBlank(u);
    var full := FullName(u);
    if full == [] then NoName else full
  }

  /** The username with an `@` in front, or the empty string when the user
      has no username (`f"@{username}" if username else ''`). */
  function Handle(u: User): (h: string)
    ensures h == [] <==> OrEmpty(u.username) == []
    ensures h != [] ==> h[0] == '@' && h[1..] == u.username.value
  {
    if OrEmpty(u.username) != [] then "@" + u.username.value else ""
  }

  /** The record `parse_by_messages`, `parse_by_members` and `parse_both` build for one user. */
  function RecordOf(u: User): UserRecord {
    UserRecord(DisplayName(u), Handle(u), OrEmpty(u.phone))
  }

  /** What each field of a user's record holds: a name that is never empty,
      the `@` handle, and the phone, or `''` when there is none. */
  lemma RecordFields(u: User)
    ensures RecordOf(u).name != [] && RecordOf(u).name == DisplayName(u)
    ensures RecordOf(u).username == Handle(u)
    ensures RecordOf(u).phone == [] <==> u.phone.None? || u.phone.value == []
    ensures u.phone.Some? ==> RecordOf(u).phone == u.phone.value
  {
  }

  /** The joined name strips to nothing exactly when both parts are blank. */
  lemma FullNameBlank(u: User)
    ensures FullName(u) == [] <==> AllSpace(OrEmpty(u.firstName)) && AllSpace(OrEmpty(u.lastName))
  {
    var a, b := OrEmpty(u.firstName), OrEmpty(u.lastName);
    var s := a + " " + b;
    if AllSpace(a) && AllSpace(b) {
      forall i | 0 <= i < |s| ensures IsSpace(s[i]) {
        if i < |a| { assert s[i] == a[i]; }
        else if i > |a| { assert s[i] == b[i - |a| - 1]; }
      }
    } else if !AllSpace(a) {
      var i :| 0 <= i < |a| && !IsSpace(a[i]);
      assert s[i] == a[i];
    } else {
      var i :| 0 <= i < |b| && !IsSpace(b[i]);
      assert s[|a| + 1 + i] == b[i];
    }
  }

  /** A trimmed string is left as it is by `Strip`. */
  lemma StripTrimmed(s: string)
    requires Trimmed(s)
    ensures Strip(s) == s
  {
    assert LeadingSpaces(s) == 0;
    assert TrailingSpaces(s) == 0;
  }

  /** With both parts present and trimmed, the name is "first last". */
  lemma FullNameJoins(u: User)
    requires Trimmed(OrEmpty(u.firstName)) && Trimmed(OrEmpty(u.lastName))
    ensures DisplayName(u) == u.firstName.value + " " + u.lastName.value
  {
    var s := OrEmpty(u.firstName) + " " + OrEmpty(u.lastName);
    assert s[0] == u.firstName.value[0];
    assert s[|s| - 1] == u.lastName.value[|u.lastName.value| - 1];
    StripTrimmed(s);
  }

  /** A missing (or empty) last name leaves no trailing blank. */
  lemma FullNameFirstOnly(u: User)
    requires Trimmed(OrEmpty(u.firstName)) && OrEmpty(u.lastName) == []
    ensures DisplayName(u) == u.firstName.value
  {
    var f := u.firstName.value;
    var s := f + " " + "";
    assert LeadingSpaces(s) == 0;
    assert TrailingSpaces(s[..|s| - 1]) == 0 by { assert s[..|s| - 1] == f; }
    assert TrailingSpaces(s) == 1;
    assert s[..|s| - 1] == f;
  }

  /** A missing (or empty) first name leaves no leading blank. */
  lemma FullNameLastOnly(u: User)
    requires OrEmpty(u.firstName) == [] && Trimmed(OrEmpty(u.lastName))
    ensures DisplayName(u) == u.lastName.value
  {
    var l := u.lastName.value;
    var s := "" + " " + l;
    assert s[1..] == l;
    assert LeadingSpaces(s[1..]) == 0;
    assert LeadingSpaces(s) == 1;
    assert TrailingSpaces(s) == 0;
  }
}
