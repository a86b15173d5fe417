/** The "my recipes" page: one card per recipe of the signed-in user. The
  query that selects and orders the recipes belongs to the document store;
  what is modelled is how one stored recipe becomes one card.
 */
module RecipeList {
  import opened Js
  import opened Records

  /** What a card shows, and where a click on it leads. */
  datatype CardView = CardView(image: string, title: string, tags: seq<string>, status: string, volume: Raw, link: string)

  /** The chips on a card: `(tags || []).slice(0, 3)`. */
  function FirstTags(tags: Option<seq<string>>): (chips: seq<string>)
    ensures tags.None? ==> chips == []
    ensures tags.Some? ==> chips <= tags.value && |chips| == if |tags.value| < 3 then |tags.value| else 3
  {
    if tags.None? then []
    else if |tags.value| <= 3 then tags.value
    else tags.value[..3]
  }

  /** The card for the recipe stored under `id`. */
  function Card(id: string, r: Recipe): (c: CardView)
    ensures c.link == "/r/" + id
    ensures c.image == StrOr(r.coverUrl, "/placeholder-dark.png")
    ensures c.title != "" && c.status != ""
    ensures (r.title.Some? && r.title.value != "") ==> c.title == r.title.value
    ensures (r.title.None? || r.title.value == "") ==> c.title == "Untitled"
    ensures (r.status.Some? && r.status.value != "") ==> c.status == r.status.value
    ensures (r.status.None? || r.status.value == "") ==> c.status == "draft"
    ensures Truthy(r.volume) ==> c.volume == r.volume
    ensures !Truthy(r.volume) ==> c.volume == Numeric(0.0)
    ensures c.tags == FirstTags(r.tags)
  {
    CardView(
      StrOr(r.coverUrl, "/placeholder-dark.png"),
      StrOr(r.title, "Untitled"),
      FirstTags(r.tags),
      StrOr(r.status, "draft"),
      RawOr(r.volume, Numeric(0.0)),
      "/r/" + id)
  }

  /** A card shows at most three chips; they are the recipe's first tags in
      order, and a recipe with at most three tags shows all of them. */
  lemma CardTags(id: string, r: Recipe)
    requires r.tags.Some?
    ensures |Card(id, r).tags| <= 3
    ensures forall k :: 0 <= k < |Card(id, r).tags| ==> Card(id, r).tags[k] == r.tags.value[k]
    ensures |r.tags.value| <= 3 <==> Card(id, r).tags == r.tags.value
  {
  }
}
