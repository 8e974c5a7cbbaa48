/** The navigation bar: the avatar's initials, its fallback to the e-mail's
    first letter, the dashboard link and the open/closed state of the two menus.
    The signed-in user and profile are inputs. */
module Navbar {
  import opened Basics
  import opened Text
  import opened Roles

  predicate NoLowercase(s: string) {
    forall i :: 0 <= i < |s| ==> !('a' <= s[i] <= 'z')
  }

  /** `getInitials(name)`: the uppercased first letters of the first two
      space-separated words of the trimmed name. Indexing an empty word yields
      `undefined`, whose `toUpperCase` throws. */
  function Initials(name: string): (r: Eval<string>)
    ensures r.Returned? ==> |r.value| <= 2 && NoLowercase(r.value)
    ensures name == "" ==> r == Returned("")
  {
    if name == "" then Returned("")
    else
      var words := Split(Trim(name), ' ');
      if |words| > 1 then
        if words[0] == "" || words[1] == "" then TypeError
        else Returned([UpperChar(words[0][0]), UpperChar(words[1][0])])
      else if words[0] == "" then TypeError
      else Returned([UpperChar(words[0][0])])
  }

  lemma TrimmedNonEmpty(name: string)
    requires Trim(name) != ""
    ensures name != ""
  {
    assert |TrimStart(name)| <= |name|;
  }

  /** A one-word name gives its uppercased first letter. */
  lemma {:induction false} InitialsOfOneWord(name: string)
    requires Trim(name) != "" && ' ' !in Trim(name)
    ensures Initials(name) == Returned([UpperChar(Trim(name)[0])])
  {
    TrimmedNonEmpty(name);
    SplitWithoutSeparator(Trim(name), ' ');
  }

  /** A name of two or more words gives the uppercased first letters of the
      first two; later words are ignored. */
  lemma {:induction false} InitialsOfSeveralWords(name: string, first: string, second: string, rest: string)
    requires Trim(name) == first + " " + second + rest
    requires first != "" && ' ' !in first && second != "" && ' ' !in second
    requires rest == "" || rest[0] == ' '
    ensures Initials(name) == Returned([UpperChar(first[0]), UpperChar(second[0])])
  {
    TrimmedNonEmpty(name);
    assert Trim(name) == first + [' '] + (second + rest);
    SplitAfterWord(first, ' ', second + rest);
    if rest == "" {
      assert second + rest == second;
      SplitWithoutSeparator(second, ' ');
    } else {
      assert second + rest == second + [' '] + rest[1..];
      SplitAfterWord(second, ' ', rest[1..]);
    }
  }

  /** Leading and trailing white space does not change the initials of a name
      that is not blank. */
  lemma InitialsIgnoreSurroundingSpace(name: string)
    requires Trim(name) != ""
    ensures Initials(name) == Initials(Trim(name))
  {
    TrimmedNonEmpty(name);
    TrimIdempotent(name);
  }

  /** A non-empty name of white space only throws. */
  lemma InitialsOfBlankNameThrow(name: string)
    requires name != "" && Trim(name) == ""
    ensures Initials(name) == TypeError
  {
  }

  /** Two consecutive spaces right after the first word leave the second word
      empty, and the call throws. */
  lemma {:induction false} InitialsThrowOnDoubleSpace(name: string, first: string, rest: string)
    requires Trim(name) == first + "  " + rest
    requires first != "" && ' ' !in first
    ensures Initials(name) == TypeError
  {
    TrimmedNonEmpty(name);
    assert Trim(name) == first + [' '] + (" " + rest);
    SplitAfterWord(first, ' ', " " + rest);
    SplitFirstEmpty(" " + rest, ' ');
  }

  /** The avatar: the profile name's initials when the name is non-empty,
      otherwise the uppercased first character of the e-mail, or "U". */
  function Avatar(profileName: Option<string>, email: string): (r: Eval<string>)
    ensures profileName.Some? && profileName.value != "" ==> r == Initials(profileName.value)
    ensures profileName.None? || profileName.value == "" ==>
              r.Returned? && |r.value| == 1 && NoLowercase(r.value) &&
              (email == "" ==> r.value == "U") && (email != "" ==> r.value == [UpperChar(email[0])])
  {
    if profileName.Some? && profileName.value != "" then Initials(profileName.value)
    else if email == "" then Returned("U")
    else Returned([UpperChar(email[0])])
  }

  /** The dashboard link of both menus. */
  function DashboardLink(role: Option<string>): (path: string)
    ensures StartsWith(path, "/dashboard/")
    ensures role.None? || role.value == "" ==> path == "/dashboard/student"
    ensures role.Some? && role.value != "" ==> path == "/dashboard/" + role.value
  {
    DashboardPath(role)
  }

  /** The component's menu and loading flags. */
  class Menus {
    var isMenuOpen: bool
    var isUserMenuOpen: bool
    var isLoading: bool

    constructor()
      ensures !isMenuOpen && !isUserMenuOpen && isLoading
    {
      isMenuOpen := false;
      isUserMenuOpen := false;
      isLoading := true;
    }

    /** The mobile menu button. */
    method ToggleMenu()
      modifies this
      ensures isMenuOpen == !old(isMenuOpen)
      ensures isUserMenuOpen == old(isUserMenuOpen) && isLoading == old(isLoading)
    {
      isMenuOpen := !isMenuOpen;
    }

    /** The avatar button. */
    method ToggleUserMenu()
      modifies this
      ensures isUserMenuOpen == !old(isUserMenuOpen)
      ensures isMenuOpen == old(isMenuOpen) && isLoading == old(isLoading)
    {
      isUserMenuOpen := !isUserMenuOpen;
    }

    /** The backdrop, or the user menu's dashboard link. */
    method CloseUserMenu()
      modifies this
      ensures !isUserMenuOpen
      ensures isMenuOpen == old(isMenuOpen) && isLoading == old(isLoading)
    {
      isUserMenuOpen := false;
    }

    /** A link in the mobile menu. */
    method CloseMenu()
      modifies this
      ensures !isMenuOpen
      ensures isUserMenuOpen == old(isUserMenuOpen) && isLoading == old(isLoading)
    {
      isMenuOpen := false;
    }

    /** `handleLogout` up to its timer. Loading starts first; the menus close
        only after `signOut` resolves, so a rejected sign-out leaves them as
        they were, with loading still on. */
    method HandleLogout(signedOut: bool)
      modifies this
      ensures isLoading
      ensures signedOut ==> !isMenuOpen && !isUserMenuOpen
      ensures !signedOut ==> isMenuOpen == old(isMenuOpen) && isUserMenuOpen == old(isUserMenuOpen)
    {
      isLoading := true;
      if signedOut {
        isUserMenuOpen := false;
        isMenuOpen := false;
      }
    }

    /** The logout timer, one second after a successful sign-out: loading ends
        (the navigation to the login page is not modelled). */
    method LogoutTimerFires()
      modifies this
      ensures !isLoading
      ensures isMenuOpen == old(isMenuOpen) && isUserMenuOpen == old(isUserMenuOpen)
    {
      isLoading := false;
    }

    /** The mobile "Sign out" button: `handleLogout` without waiting for it,
        then closing the mobile menu. Both writes to the mobile menu close it,
        so their order does not change the state reached. */
    method MobileLogout(signedOut: bool)
      modifies this
      ensures isLoading && !isMenuOpen
      ensures signedOut ==> !isUserMenuOpen
      ensures !signedOut ==> isUserMenuOpen == old(isUserMenuOpen)
    {
      HandleLogout(signedOut);
      CloseMenu();
    }
  }
}
