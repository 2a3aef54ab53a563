/**
  The navigation bar: which tab is highlighted for the current location,
  when the bar is drawn at all, and the initials in the avatar.
*/
module Navigation {
  import opened Wrappers
  import opened Ascii

  /** `isActive(path)`: the location is the path itself or lies below it. */
  predicate IsActive(location: string, path: string) {
    location == path || StartsWith(location, path + "/")
  }

  /** The location is the tab's page or a page beneath it, and a bare string prefix is not enough. */
  lemma IsActiveSpec(path: string, rest: string, c: char, tail: string)
    requires c != '/'
    ensures IsActive(path, path)
    ensures IsActive(path + "/" + rest, path)
    ensures !IsActive(path + [c] + tail, path)
  {
    assert (path + "/" + rest)[..|path| + 1] == path + "/";
    var other := path + [c] + tail;
    assert other[|path|] == c != (path + "/")[|path|];
  }

  /** "/dashboardx" does not highlight the Dashboard tab. */
  lemma DashboardxIsNotDashboard()
    ensures !IsActive("/dashboardx", "/dashboard")
  {
    IsActiveSpec("/dashboard", "", 'x', "");
    assert "/dashboard" + ['x'] + "" == "/dashboardx";
  }

  /** The paths of the four tabs. */
  const NavPaths: seq<string> := ["/dashboard", "/reviews", "/creators", "/training"]

  /** A tab is highlighted only where the location agrees with its path in the second character. */
  lemma ActiveSharesSecondChar(location: string, path: string)
    requires |path| >= 2 && IsActive(location, path)
    ensures |location| >= 2 && location[1] == path[1]
  {
    if location != path {
      assert location[..|path| + 1] == path + "/";
      assert location[1] == (path + "/")[1];
    }
  }

  /** At most one tab is highlighted at any location. */
  lemma AtMostOneTabActive(location: string, i: nat, j: nat)
    requires i < |NavPaths| && j < |NavPaths|
    requires IsActive(location, NavPaths[i]) && IsActive(location, NavPaths[j])
    ensures i == j
  {
    ActiveSharesSecondChar(location, NavPaths[i]);
    ActiveSharesSecondChar(location, NavPaths[j]);
    assert NavPaths[0][1] == 'd' && NavPaths[1][1] == 'r' && NavPaths[2][1] == 'c' && NavPaths[3][1] == 't';
  }

  /** The bar is not drawn on the landing and sign-in pages, nor for a visitor who is not signed in. */
  predicate Visible(location: string, signedIn: bool) {
    if location == "/" || location == "/auth" then false
    else signedIn
  }

  /** On each tab's own page a signed-in user sees the bar, with that tab highlighted and no other. */
  lemma TabPageShowsItsTab(i: nat, j: nat)
    requires i < |NavPaths| && j < |NavPaths|
    ensures Visible(NavPaths[i], true) && !Visible(NavPaths[i], false)
    ensures IsActive(NavPaths[i], NavPaths[j]) <==> i == j
  {
    if IsActive(NavPaths[i], NavPaths[j]) {
      AtMostOneTabActive(NavPaths[i], i, j);
    }
  }

  // ---------------------------------------------------------------------------
  // Initials

  /** `words.map(n => n[0]).join('')`: an empty word contributes nothing. */
  function FirstChars(words: seq<string>): (r: string)
    ensures |r| <= |words|
  {
    if words == [] then ""
    else (if words[0] == "" then "" else [words[0][0]]) + FirstChars(words[1..])
  }

  /** `user.name?.split(' ').map(n => n[0]).join('').toUpperCase() || 'U'`. */
  function Initials(name: Option<string>): (r: string)
    ensures r != ""
    ensures forall k :: 0 <= k < |r| ==> !IsLower(r[k])
  {
    if name.None? then "U"
    else
      var s := Upper(FirstChars(SplitOn(name.value, ' ')));
      if s == "" then "U" else s
  }

  /** A two-word name gives the capitals of both words' first letters. */
  lemma InitialsOfTwoWords(first: string, last: string)
    requires first != "" && last != ""
    requires ' ' !in first && ' ' !in last
    ensures Initials(Some(first + " " + last)) == [UpperChar(first[0]), UpperChar(last[0])]
  {
    SplitAtFirstSeparator(first, last, ' ');
    SplitWithoutSeparator(last, ' ');
    assert first + " " + last == first + [' '] + last;
    assert SplitOn(first + " " + last, ' ') == [first, last];
    assert FirstChars([first, last]) == [first[0], last[0]] by {
      assert [first, last][1..] == [last];
      assert [last][1..] == [];
    }
  }

  /** Every word of a name made only of spaces is empty. */
  lemma {:induction false} SplitOfSpaces(s: string)
    requires forall k :: 0 <= k < |s| ==> s[k] == ' '
    ensures forall k :: 0 <= k < |SplitOn(s, ' ')| ==> SplitOn(s, ' ')[k] == ""
  {
    if s != [] {
      SplitOfSpaces(s[1..]);
    }
  }

  lemma {:induction false} FirstCharsOfEmptyWords(words: seq<string>)
    requires forall k :: 0 <= k < |words| ==> words[k] == ""
    ensures FirstChars(words) == ""
  {
    if words != [] {
      FirstCharsOfEmptyWords(words[1..]);
    }
  }

  /** Without a name, or with a name of spaces only, the avatar shows "U". */
  lemma InitialsFallback(spaces: string)
    requires forall k :: 0 <= k < |spaces| ==> spaces[k] == ' '
    ensures Initials(None) == "U"
    ensures Initials(Some(spaces)) == "U"
  {
    SplitOfSpaces(spaces);
    FirstCharsOfEmptyWords(SplitOn(spaces, ' '));
  }
}
