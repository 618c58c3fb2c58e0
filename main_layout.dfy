/**
 * The page frame (components/layout/main-layout.tsx): the user's initials in
 * the avatar, the name shown beside it, and which navigation entry is
 * highlighted. A missing user, `full_name` or `email` is `None`.
 */
module MainLayout {
  import opened Options
  import opened Text

  /** The navigation entries' targets, in display order (lines 29-34). */
  const NavHrefs: seq<string> := ["/", "/debts", "/transactions", "/budget"]

  /** `pieces.map((name) => name[0]).join("")`: an empty piece gives `undefined`, which `join` writes as nothing. */
  function FirstChars(pieces: seq<string>): string
  {
    if pieces == [] then ""
    else (if pieces[0] == "" then "" else [pieces[0][0]]) + FirstChars(pieces[1..])
  }

  /** The characters that start a word: not a space, and at the start of the text or after a space. */
  function WordStarts(s: string, atStart: bool): string
  {
    if s == [] then ""
    else if s[0] == ' ' then WordStarts(s[1..], true)
    else (if atStart then [s[0]] else "") + WordStarts(s[1..], false)
  }

  /** Splitting on spaces and taking each piece's first character picks exactly the word starts. */
  lemma {:induction false} FirstCharsOfSplit(s: string)
    ensures FirstChars(Split(s, ' ')) == WordStarts(s, true)
    ensures FirstChars(Split(s, ' ')[1..]) == WordStarts(s, false)
  {
    if s != [] {
      var rest := Split(s[1..], ' ');
      FirstCharsOfSplit(s[1..]);
      if s[0] == ' ' {
        assert Split(s, ' ') == [""] + rest;
        assert ([""] + rest)[1..] == rest;
      } else {
        var pieces := [[s[0]] + rest[0]] + rest[1..];
        assert Split(s, ' ') == pieces;
        assert pieces[1..] == rest[1..];
      }
    }
  }

  /** `getUserInitials` (lines 49-59). */
  function Initials(fullName: Option<string>, email: Option<string>): string
  {
    if fullName.Some? && fullName.value != "" then
      Take(Upper(FirstChars(Split(fullName.value, ' '))), 2)
    else
      var fromEmail := if email.Some? then Upper(Take(email.value, 2)) else "";
      if fromEmail == "" then "U" else fromEmail
  }

  /**
   * The initials are at most two characters: the upper-cased starts of the first
   * two words of a full name (possibly fewer, when the name is only spaces), else
   * the first two characters of the email upper-cased, else `"U"`.
   */
  lemma InitialsSpec(fullName: Option<string>, email: Option<string>)
    ensures |Initials(fullName, email)| <= 2
    ensures fullName.Some? && fullName.value != "" ==>
      Initials(fullName, email) == Upper(Take(WordStarts(fullName.value, true), 2))
    ensures !(fullName.Some? && fullName.value != "") ==>
      Initials(fullName, email) == if email.Some? && email.value != "" then Upper(Take(email.value, 2)) else "U"
  {
    if fullName.Some? && fullName.value != "" {
      FirstCharsOfSplit(fullName.value);
      UpperTake(WordStarts(fullName.value, true), 2);
    }
  }

  /** A full name made only of spaces has no initials at all. */
  lemma BlankNameHasNoInitials(email: Option<string>)
    ensures Initials(Some("  "), email) == ""
  {
    InitialsSpec(Some("  "), email);
    assert "  "[1..] == " " && " "[1..] == "";
  }

  /** `user?.user_metadata?.full_name || "Usuário"` (line 117). */
  function DisplayName(fullName: Option<string>): (r: string)
    ensures r != ""
    ensures fullName.Some? && fullName.value != "" ==> r == fullName.value
    ensures !(fullName.Some? && fullName.value != "") ==> r == "Usuário"
  {
    if fullName.Some? && fullName.value != "" then fullName.value else "Usuário"
  }

  /** `pathname === item.href` (lines 89 and 146). */
  predicate IsActive(pathname: string, href: string)
  {
    pathname == href
  }

  /**
   * At most one entry is highlighted, the one whose target is the path itself;
   * a page below a section, such as `/debts/1`, highlights nothing.
   */
  lemma ActiveEntry(pathname: string)
    ensures forall i, j :: 0 <= i < j < |NavHrefs| ==> !(IsActive(pathname, NavHrefs[i]) && IsActive(pathname, NavHrefs[j]))
    ensures (exists i :: 0 <= i < |NavHrefs| && IsActive(pathname, NavHrefs[i])) <==> pathname in NavHrefs
    ensures forall i, rest :: 0 <= i < |NavHrefs| && pathname == NavHrefs[i] + "/" + rest ==> !IsActive(pathname, NavHrefs[i])
  {
  }
}
