/** Properties that span pages: what one page writes and another reads. */
module Flows {
  import opened Js
  import opened Text
  import opened Records
  import AddRecipe
  import RecipeEditor
  import RecipeView
  import Search
  import RecipeList

  /** Rows without numeric parts have a parts total of zero. */
  lemma {:induction false} NoPartsTotalZero(rows: seq<Row>)
    requires forall k :: 0 <= k < |rows| ==> !rows[k].parts.Numeric?
    ensures TotalParts(rows) == 0.0
  {
    SumCoercedIsSum(PartsOf(rows));
    NoPartsSum(CoerceAll(PartsOf(rows)));
  }

  lemma {:induction false} NoPartsSum(xs: seq<real>)
    requires forall k :: 0 <= k < |xs| ==> xs[k] == 0.0
    ensures Sum(xs) == 0.0
  {
    if |xs| > 0 {
      NoPartsSum(xs[1..]);
    }
  }

  /** The editor saves percentages and no parts, and the view derives its
      figures from parts only: a recipe saved by the editor shows 0 % and 0 ml
      on every row, whatever the what-if volume. */
  lemma EditorSavedRecipeShowsZero(s: RecipeEditor.EditorState, user: User, stored: Option<Recipe>, custom: Option<real>)
    ensures var saved := RecipeEditor.Save(s, Some(user), stored).value;
      var shown := RecipeView.ViewRows(saved, custom);
      |shown| == |s.ingredients| &&
      forall k :: 0 <= k < |shown| ==> shown[k].pct == Fin(0.0) && shown[k].ml == 0.0
  {
    var saved := RecipeEditor.Save(s, Some(user), stored).value;
    NoPartsTotalZero(RecipeView.Ingredients(saved));
  }

  /** A recipe created on the ratio page is shown by the view with the same
      percentages and, without a what-if volume, the same amounts that the
      create page displayed. */
  lemma CreatedRecipeViewAgrees(d: AddRecipe.Draft, user: User, id: string)
    requires AllPartsNumeric(d.ingredients)
    ensures var doc := AddRecipe.Save(d, Some(user), id).value.doc;
      var shown := RecipeView.ViewRows(doc, None);
      var derived := AddRecipe.RatioRows(d.ingredients, d.volume);
      |shown| == |derived| &&
      forall k :: 0 <= k < |shown| ==>
        shown[k].pct == derived[k].percentage && Fin(shown[k].ml) == derived[k].amountMl
  {
    var doc := AddRecipe.Save(d, Some(user), id).value.doc;
    var rows := AddRecipe.SaveRows(d.ingredients);
    assert RecipeView.Ingredients(doc) == rows;
    AddRecipe.SaveKeepsTotal(d.ingredients);
    var total := TotalParts(d.ingredients);
    assert RecipeView.DisplayVolume(None, doc.volume) == Fin(d.volume);
    var shown := RecipeView.ViewRows(doc, None);
    var derived := AddRecipe.RatioRows(d.ingredients, d.volume);
    forall k | 0 <= k < |shown|
      ensures shown[k].pct == derived[k].percentage && Fin(shown[k].ml) == derived[k].amountMl
    {
      assert d.ingredients[k].parts.Numeric?;
      assert rows[k].parts == d.ingredients[k].parts;
      assert derived[k] == AddRecipe.Derive(d.ingredients[k], total, d.volume);
    }
  }

  /** A recipe created on the ratio page has no visibility field, so the
      lookup page opens it for anyone signed in. */
  lemma CreatedRecipeIsFound(d: AddRecipe.Draft, user: User, id: string, typed: string)
    requires !AllSpace(typed)
    ensures var doc := AddRecipe.Save(d, Some(user), id).value.doc;
      Search.HandleSearch(typed, true, Search.Found(doc.isPublic)).outcome == Search.Navigate("/r/" + Trim(typed) + "/view")
  {
  }

  /** A duplicate is written private, so the lookup page refuses it. */
  lemma DuplicateIsPrivate(s: RecipeEditor.EditorState, user: User, newId: string, freshIds: seq<string>, typed: string)
    requires |freshIds| == |s.ingredients| && !AllSpace(typed)
    ensures var doc := RecipeEditor.Duplicate(s, Some(user), newId, freshIds).value.doc;
      Search.HandleSearch(typed, true, Search.Found(doc.isPublic)).outcome == Search.Message(Search.PrivateText)
  {
  }

  /** Opening a recipe without a visibility field in the editor and saving it
      unchanged writes `isPublic: false`: a recipe the lookup page used to open
      is refused from then on. */
  lemma EditorSaveMakesPrivate(id: string, doc: Recipe, user: User, typed: string)
    requires id != "" && doc.isPublic.None? && !AllSpace(typed)
    ensures Search.HandleSearch(typed, true, Search.Found(doc.isPublic)).outcome.Navigate?
    ensures var saved := RecipeEditor.Save(RecipeEditor.Load(id, Some(doc)).value, Some(user), Some(doc)).value;
      Search.HandleSearch(typed, true, Search.Found(saved.isPublic)).outcome == Search.Message(Search.PrivateText)
  {
  }

  /** Loading and saving in the editor keeps a well-formed tag list as it was. */
  lemma EditorKeepsTags(id: string, doc: Recipe, user: User)
    requires id != "" && doc.tags.Some? && WellFormedTags(doc.tags.value)
    ensures RecipeEditor.Save(RecipeEditor.Load(id, Some(doc)).value, Some(user), Some(doc)).value.tags == doc.tags
  {
    TagsRoundTrip(doc.tags.value);
  }

  /** The card of a newly created recipe links where the create page went,
      and shows its cleaned title and its first three parsed tags. */
  lemma CreatedRecipeCard(d: AddRecipe.Draft, user: User, id: string)
    ensures var c := AddRecipe.Save(d, Some(user), id).value;
      var card := RecipeList.Card(c.id, c.doc);
      card.link == c.next &&
      card.title == TitleOrUntitled(d.title) &&
      card.tags == RecipeList.FirstTags(Some(ParseTags(d.tags)))
  {
  }

  /** The view's Edit button follows ownership: the signed-in author of a
      recipe created on the ratio page can edit it, and nobody else can. */
  lemma CreatorCanEdit(d: AddRecipe.Draft, user: User, id: string, viewer: Option<User>)
    ensures var doc := AddRecipe.Save(d, Some(user), id).value.doc;
      RecipeView.CanEdit(viewer, doc) <==> viewer.Some? && viewer.value.uid == user.uid
  {
  }

  /** A duplicate belongs to the user who made it: they can edit it, and a
      viewer with any other id cannot, whoever owned the source. */
  lemma DuplicateOwnerCanEdit(s: RecipeEditor.EditorState, user: User, newId: string, freshIds: seq<string>, viewer: Option<User>)
    requires |freshIds| == |s.ingredients|
    ensures var doc := RecipeEditor.Duplicate(s, Some(user), newId, freshIds).value.doc;
      RecipeView.CanEdit(viewer, doc) <==> viewer.Some? && viewer.value.uid == user.uid
  {
  }

  /** Saving in the editor keeps the stored owner, so exactly the viewers who
      could edit the stored recipe can edit the saved one, whoever saved it. */
  lemma EditorSaveKeepsEditRight(s: RecipeEditor.EditorState, user: User, stored: Recipe, viewer: Option<User>)
    ensures var saved := RecipeEditor.Save(s, Some(user), Some(stored)).value;
      RecipeView.CanEdit(viewer, saved) <==> RecipeView.CanEdit(viewer, stored)
  {
  }
}
