/** The recipe lookup page: a recipe id typed by the reader is checked, looked
  up, and either opened or answered with a message whose wording selects the
  kind of alert shown.
 */
module Search {
  import opened Js
  import opened Text

  /** What the document store answers for an id. A found recipe is reduced to
      its `isPublic` field, the only one the decision reads. */
  datatype Lookup = NotFound | Found(isPublic: Option<bool>) | Failed(message: string)

  datatype Outcome = Message(text: string) | Navigate(path: string)

  /** The decision, and the id that was looked up if a lookup happened. */
  datatype Search = Search(lookedUp: Option<string>, outcome: Outcome)

  const EnterId := "Please enter a recipe ID"
  const SignIn := "Please sign in to search recipes"
  const NotFoundText := "Recipe not found"
  const PrivateText := "\U{1F512} This recipe is " + "private" + ". Only the owner can view it."
  const FailedText := "Error searching for recipe"

  /** `handleSearch`: blank id, then no sign-in, then a lookup of the trimmed id
      that is missing, failed, or explicitly private; otherwise open the recipe.
      `lookup` is the store's answer for the trimmed id. */
  function HandleSearch(recipeId: string, isAuthenticated: bool, lookup: Lookup): (s: Search)
    ensures AllSpace(recipeId) <==> s == Search(None, Message(EnterId))
    ensures !AllSpace(recipeId) && !isAuthenticated <==> s == Search(None, Message(SignIn))
    ensures s.lookedUp.Some? <==> !AllSpace(recipeId) && isAuthenticated
    ensures s.lookedUp.Some? ==> s.lookedUp.value == Trim(recipeId)
    ensures s.lookedUp.Some? && lookup.NotFound? ==> s.outcome == Message(NotFoundText)
    ensures s.lookedUp.Some? && lookup.Found? ==> (s.outcome == Message(PrivateText) <==> lookup.isPublic == Some(false))
    ensures s.lookedUp.Some? && lookup.Failed? ==>
      s.outcome == Message(if lookup.message != "" then lookup.message else FailedText)
    ensures s.outcome.Navigate? <==> s.lookedUp.Some? && lookup.Found? && lookup.isPublic != Some(false)
    ensures s.outcome.Navigate? ==> s.outcome.path == "/r/" + Trim(recipeId) + "/view"
  {
    TrimEmptyIff(recipeId);
    var id := Trim(recipeId);
    if id == "" then Search(None, Message(EnterId))
    else if !isAuthenticated then Search(None, Message(SignIn))
    else
      var outcome :=
        match lookup
        case NotFound => Message(NotFoundText)
        case Failed(m) => Message(if m != "" then m else FailedText)
        case Found(p) => if p == Some(false) then Message(PrivateText) else Navigate("/r/" + id + "/view");
      Search(Some(id), outcome)
  }

  datatype Severity = Warning | Error

  /** The alert's body: one of the two fixed banners, or the message itself. */
  datatype Banner = PrivateBanner | NotFoundBanner | Plain(text: string)

  datatype Alert = Alert(severity: Severity, banner: Banner)

  /** The alert under the form: none while the message is empty; otherwise
      `includes('private')` picks the warning and the private banner, else an
      error whose banner depends on `includes('not found')`. */
  function AlertFor(message: string): (a: Option<Alert>)
    ensures a.None? <==> message == ""
    ensures a.Some? ==> (a.value.severity == Warning <==> Contains(message, "private"))
    ensures a.Some? ==> (a.value.banner == PrivateBanner <==> Contains(message, "private"))
    ensures a.Some? ==> (a.value.banner == NotFoundBanner <==> !Contains(message, "private") && Contains(message, "not found"))
    ensures a.Some? && a.value.banner.Plain? ==> a.value.banner.text == message
  {
    if message == "" then None
    else if Contains(message, "private") then Some(Alert(Warning, PrivateBanner))
    else if Contains(message, "not found") then Some(Alert(Error, NotFoundBanner))
    else Some(Alert(Error, Plain(message)))
  }

  /** A private recipe gets the private warning. */
  lemma PrivateAlert()
    ensures AlertFor(PrivateText) == Some(Alert(Warning, PrivateBanner))
  {
    ContainsMiddle("\U{1F512} This recipe is ", "private", ". Only the owner can view it.");
  }

  /** A missing recipe gets the not-found error, not the private warning. */
  lemma NotFoundAlert()
    ensures AlertFor(NotFoundText) == Some(Alert(Error, NotFoundBanner))
  {
    NotContains(NotFoundText, "private", 'v');
    ContainsMiddle("Recipe ", "not found", "");
    assert NotFoundText == "Recipe " + "not found" + "";
  }

  /** The blank-id message is shown as a plain error. */
  lemma EnterIdAlert()
    ensures AlertFor(EnterId) == Some(Alert(Error, Plain(EnterId)))
  {
    NotContains(EnterId, "private", 'v');
    NotContains(EnterId, "not found", 'f');
  }

  /** The sign-in message is shown as a plain error. */
  lemma SignInAlert()
    ensures AlertFor(SignIn) == Some(Alert(Error, Plain(SignIn)))
  {
    NotContains(SignIn, "private", 'v');
    NotContains(SignIn, "not found", 'f');
  }

  /** Visibility gating: only an explicit `isPublic === false` is refused; a
      recipe with no `isPublic` field opens like a public one, and no owner
      check takes place. */
  lemma OnlyExplicitFalseIsPrivate(recipeId: string, p: Option<bool>)
    requires !AllSpace(recipeId)
    ensures HandleSearch(recipeId, true, Found(p)).outcome.Navigate? <==> p != Some(false)
    ensures HandleSearch(recipeId, true, Found(None)) == HandleSearch(recipeId, true, Found(Some(true)))
  {
  }
}
