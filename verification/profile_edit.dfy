/** The profile page: the avatar letter, the checks on a new password, the
  display name that is saved, and the storage name of an uploaded picture.
  The page's avatar uses the same initial as the header (`AppShell.Initials`).
 */
module ProfileEdit {
  import opened Js
  import opened Text
  import AppShell

  /** What the password fields ask for. */
  datatype PasswordCheck = Unchanged | Rejected(message: string) | Change(password: string)

  const Mismatch := "Passwords do not match"
  const TooShort := "Password must be at least 6 characters"

  /** The password step of saving: nothing to do for an empty field; otherwise
      a mismatch is reported first, then a password shorter than 6 UTF-16 code
      units. */
  function CheckPassword(password: string, confirmation: string): (r: PasswordCheck)
    ensures r == Unchanged <==> password == ""
    ensures password != "" && password != confirmation ==> r == Rejected(Mismatch)
    ensures password != "" && password == confirmation && Utf16Length(password) < 6 ==> r == Rejected(TooShort)
    ensures r.Change? <==> password != "" && password == confirmation && Utf16Length(password) >= 6
    ensures r.Change? ==> r.password == password
  {
    if password == "" then Unchanged
    else if password != confirmation then Rejected(Mismatch)
    else if Utf16Length(password) < 6 then Rejected(TooShort)
    else Change(password)
  }

  /** Only a confirmed password of at least six code units is ever set, and a
      mismatch hides any length problem. */
  lemma PasswordOrder(password: string, confirmation: string)
    requires password != "" && |password| < 6 && password != confirmation
    ensures CheckPassword(password, confirmation) == Rejected(Mismatch)
    ensures CheckPassword(password, password) == if Utf16Length(password) < 6 then Rejected(TooShort) else Change(password)
  {
  }

  /** `displayName.trim() || user.displayName`: the typed name, trimmed, or the
      account's current name when the field is blank. */
  function SavedDisplayName(input: string, current: Option<string>): (n: Option<string>)
    ensures !AllSpace(input) ==> n == Some(Trim(input))
    ensures AllSpace(input) ==> n == current
  {
    TrimEmptyIff(input);
    var t := Trim(input);
    if t != "" then Some(t) else current
  }

  /** Once the profile is read again after a save with a non-blank name, the
      header shows the trimmed name and the same initial as the name typed.
      The header's copy of the profile is fetched only when the sign-in state
      changes, so until then it keeps the old name. */
  lemma HeaderOnceReread(input: string, current: Option<string>, email: Option<string>)
    requires !AllSpace(input)
    ensures AppShell.DisplayName(SavedDisplayName(input, current), email) == Trim(input)
    ensures AppShell.Initials(AppShell.DisplayName(SavedDisplayName(input, current), email)) == AppShell.Initials(input)
  {
    TrimEmptyIff(input);
    var t := Trim(input);
    TrimFirst(input, Leading(input));
    assert Leading(t) == 0;
    assert !AllSpace(t);
  }

  /** `name.split('.').pop()`: the text after the last dot, or the whole name. */
  function Extension(name: string): (ext: string)
    ensures '.' !in ext
  {
    var pieces := Split(name, '.');
    SplitPiecesFree(name, '.');
    pieces[|pieces| - 1]
  }

  /** The extension is the part of the name after its last dot, and the whole
      name when it has no dot. */
  lemma ExtensionAfterLastDot(name: string)
    ensures '.' !in name ==> Extension(name) == name
    ensures '.' in name ==> 0 <= LastIndex(name, '.') && Extension(name) == name[LastIndex(name, '.') + 1..]
  {
    var i := LastIndex(name, '.');
    SplitLast(name, '.');
    if '.' in name {
      assert i >= 0;
    } else {
      assert i < 0;
      assert Split(name, '.') == [name];
    }
  }

  /** Appending `.ext` makes `ext` the extension. */
  lemma ExtensionOfAppend(stem: string, ext: string)
    requires '.' !in ext
    ensures Extension(stem + "." + ext) == ext
  {
    assert stem + "." + ext == stem + ['.'] + ext;
    SplitAppend(stem, ext, '.');
    SplitFree(ext, '.');
  }

  /** The storage name of an uploaded picture: `${uid}_${Date.now()}.${ext}`,
      the timestamp in milliseconds passed in as `now`. */
  function UploadFileName(uid: string, now: nat, name: string): (f: string)
    ensures Extension(f) == Extension(name)
  {
    ExtensionOfAppend(uid + "_" + Decimal(now), Extension(name));
    uid + "_" + Decimal(now) + "." + Extension(name)
  }

  /** The upload name is the user's id, `_`, the timestamp, which can be read
      back from its digits, and then directly `.` and the extension. */
  lemma UploadFileNameParts(uid: string, now: nat, name: string)
    ensures var f := UploadFileName(uid, now, name);
      |f| == |uid| + 2 + |Decimal(now)| + |Extension(name)| &&
      f[..|uid| + 1] == uid + "_" &&
      f[|uid| + 1..|uid| + 1 + |Decimal(now)|] == Decimal(now) &&
      f[|uid| + 1 + |Decimal(now)|..] == "." + Extension(name) &&
      DecimalValue(f[|uid| + 1..|uid| + 1 + |Decimal(now)|]) == now
  {
    var f := UploadFileName(uid, now, name);
    var head := uid + "_";
    var d := Decimal(now);
    var tail := "." + Extension(name);
    assert f == head + d + tail;
    assert f[..|head|] == head;
    assert f[|head|..|head| + |d|] == d;
    assert f[|head| + |d|..] == tail;
    DecimalRoundTrip(now);
  }
}
