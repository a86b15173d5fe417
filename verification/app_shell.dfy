/** The application frame: the brand link, the signed-in user's name and
  the avatar letter shown in the header.
 */
module AppShell {
  import opened Js
  import opened Text

  /** `initials(name)`: the first character of the first word of the trimmed
      name, upper-cased, or `U` when the name is blank. */
  function Initials(name: string): (r: string)
    ensures |r| == 1
    ensures AllSpace(name) ==> r == "U"
    ensures !AllSpace(name) ==> r == [Upper(name[Leading(name)])]
  {
    TrimEmptyIff(name);
    var first := FirstWord(Trim(name));
    if first == "" then "U"
    else
      TrimFirst(name, Leading(name));
      [Upper(first[0])]
  }

  /** Leading blanks and everything after the first word play no part: the
      initial of a name is the initial of its first word. */
  lemma InitialsOfFirstWord(name: string)
    requires !AllSpace(name)
    ensures Initials(name) == Initials(FirstWord(Trim(name)))
  {
    TrimEmptyIff(name);
    TrimFirst(name, Leading(name));
    var w := FirstWord(Trim(name));
    assert w[0] == name[Leading(name)];
    assert Leading(w) == 0;
  }

  /** Prefixing blanks does not change the initial. */
  lemma InitialsSkipBlanks(blanks: string, name: string)
    requires AllSpace(blanks)
    ensures Initials(blanks + name) == Initials(name)
  {
    var s := blanks + name;
    LeadingAfterBlanks(blanks, name);
    if AllSpace(name) {
      assert AllSpace(s) by {
        forall k | 0 <= k < |s| ensures IsSpace(s[k]) {
          if k >= |blanks| {
            assert s[k] == name[k - |blanks|];
          }
        }
      }
    } else {
      var k :| 0 <= k < |name| && !IsSpace(name[k]);
      assert s[|blanks| + k] == name[k];
    }
  }

  lemma {:induction false} LeadingAfterBlanks(blanks: string, name: string)
    requires AllSpace(blanks)
    ensures Leading(blanks + name) == |blanks| + Leading(name)
  {
    if |blanks| > 0 {
      assert (blanks + name)[1..] == blanks[1..] + name;
      LeadingAfterBlanks(blanks[1..], name);
    } else {
      assert blanks + name == name;
    }
  }

  /** The name in the header: `userProfile?.displayName || user?.email || 'User'`. */
  function DisplayName(profileName: Option<string>, email: Option<string>): (n: string)
    ensures n != ""
    ensures profileName.Some? && profileName.value != "" ==> n == profileName.value
    ensures (profileName.None? || profileName.value == "") && email.Some? && email.value != "" ==> n == email.value
    ensures (profileName.None? || profileName.value == "") && (email.None? || email.value == "") ==> n == "User"
  {
    StrOr(profileName, StrOr(email, "User"))
  }

  /** The avatar of an account with neither a name nor an e-mail address
      shows the initial of the fallback name. */
  lemma AnonymousAvatar()
    ensures Initials(DisplayName(None, None)) == "U"
  {
    assert !IsSpace('U');
    assert Leading("User") == 0;
  }

  /** The brand link: the home page when signed in, the sign-up page otherwise. */
  function HomeLink(isAuthenticated: bool): (path: string)
    ensures isAuthenticated <==> path == "/"
    ensures !isAuthenticated <==> path == "/signup"
  {
    if isAuthenticated then "/" else "/signup"
  }
}
