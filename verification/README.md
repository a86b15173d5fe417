# Fragrance formulation engine — a Dafny model

This project models the formulation logic of a small fragrance-recipe web
application. The application's pages keep that logic inside their
components. A recipe is a list of ingredient rows. It is written in one of
two schemas:

- On the create page, each row carries relative **parts**. Each row's
  percentage is its share of the parts total, and its amount is that share of
  the batch volume. The read-only view page derives its figures the same way
  from the stored parts, and the reader may enter a "what-if" volume there.
- On the edit page, each row carries an explicit **percentage** of the batch
  volume. Nothing is rescaled, and the page shows the plain sum of the
  percentages.

Around these two derivations sit the row-list edits (append, remove by id,
edit a field at an index), the documents written on save and on duplicate,
the lookup page's decision sequence, the printable sheet's content, the list
card, and the small helpers of the header and profile pages.

JavaScript values are modelled explicitly:

- A stored field is `Js.Raw`: missing, a number, or a value whose
  `Number(...)` is NaN.
- An arithmetic result is `Js.Num`: NaN or a finite exact `real`.
- `Number(x) || 0` is `Js.Coerce`.
- `a || b` on strings is `Js.StrOr`.

`uuid()` becomes fresh-id parameters, and `Date.now()` a `nat` parameter.
The page-width line breaking of the sheet's notes becomes a parameter, and so
does the printed form of the batch volume. Exact `real` arithmetic stands for
IEEE doubles.

Modules:

- `Js`, `Text`: JavaScript value and string semantics.
- `Records`: stored documents, totals, the title and tag normalisation.
- `AddRecipe`, `RecipeEditor`, `RecipeView`, `IngredientTable`, `Search`,
  `RecipePdf`, `RecipeList`, `AppShell`, `ProfileEdit`: one module per source
  file.
- `Flows`: properties that span pages.

Behaviour of the code worth knowing:

- The batch-volume fields store `Number(value) || 0`, so a negative volume is
  kept and not clamped to 0 (`Js.Coerce`; src/pages/AddRecipe.jsx:132,
  src/pages/RecipeEditor.jsx:203).
- The lookup page refuses only `isPublic === false` and makes no owner check
  (`Search.OnlyExplicitFalseIsPrivate`).
- The create page writes no `isPublic` field. A new recipe is therefore not
  private: the lookup page opens it (`Flows.CreatedRecipeIsFound`), until the
  first save from the edit page writes `isPublic: false`, unless the public
  box was ticked before saving (`Flows.EditorSaveMakesPrivate`).
- The view page reads `parts`, so a recipe saved by the edit page shows 0 %
  and 0 ml on every row (`Flows.EditorSavedRecipeShowsZero`).

## Model

| member | source | states |
|---|---|---|
| Js.Coerce | src/pages/AddRecipe.jsx:38 | the `Number(x)`-or-0 coercion: a number stays itself; a missing or non-numeric value counts as 0 |
| Js.SumCoercedIsSum | src/pages/AddRecipe.jsx:37-40 | the left-to-right `reduce` total equals the plain sum of the coerced values |
| Records.PartsShare | src/pages/AddRecipe.jsx:44 | a zero total gives 0 without dividing; otherwise the share is a number exactly when the parts are, and share × total = parts × 100 |
| Records.SharesSum | src/pages/AddRecipe.jsx:42-48 | with numeric parts and a non-zero total, the shares add up to exactly 100 |
| Records.TitleOrUntitled | src/pages/AddRecipe.jsx:74 | the saved title is the trimmed title, or `Untitled` when the title is blank; never empty |
| Records.ParseTags | src/pages/AddRecipe.jsx:77 | every saved tag is non-empty, trimmed and comma-free, and a text without a comma gives its trimmed self or, when blank, nothing; with `Records.ParseTagsAppend` this fixes the result for every text (the same parse saves tags at src/pages/RecipeEditor.jsx:108) |
| Records.TotalPartsIsSum | src/pages/AddRecipe.jsx:37-40 | the parts total is the plain sum of every row's coerced parts, and grows by the last row's coerced parts |
| Records.TotalPercentageIsSum | src/pages/RecipeEditor.jsx:68-71 | the percentage total is the plain sum of every row's coerced percentage, and grows by the last row's coerced percentage |
| Records.ParseTagsIdempotent | src/pages/AddRecipe.jsx:77 | normalising the tags twice is normalising them once |
| Records.ParseTagsAppend | src/pages/AddRecipe.jsx:77 | the tags of `a,b` are the tags of `a` followed by those of `b`: order kept, repeats kept |
| Records.TagsRoundTrip | src/pages/RecipeEditor.jsx:108 | a well-formed tag list joined with `,` (as loaded at line 54) parses back to the same list |
| AddRecipe.SeedRows | src/pages/AddRecipe.jsx:32-35 | a new recipe starts with two rows: `Ethanol` with 45 parts under the first fresh id and `Calone (10%)` with 12 parts under the second, totalling 57 |
| AddRecipe.InitialDraft | src/pages/AddRecipe.jsx:25-35 | the create form starts with volume 500, status `draft`, an empty title, tags and cover URL, and the seed rows |
| AddRecipe.AddRow | src/pages/AddRecipe.jsx:64-65 | exactly one row is appended, with the fresh id, an empty name and parts 0; the existing rows are unchanged |
| AddRecipe.AddRowTotal | src/pages/AddRecipe.jsx:64-65 | appending a row leaves the parts total unchanged |
| AddRecipe.RatioRows | src/pages/AddRecipe.jsx:42-48 | the derived rows keep the ingredients' count, order and rows; each row's percentage is its parts share of the total and its amount is volume × percentage / 100 with NaN carried through; a zero total gives 0 % and 0 ml everywhere |
| AddRecipe.DeriveShares | src/pages/AddRecipe.jsx:44-45 | with a non-zero total, a row's percentage is a number exactly when its parts are, percentage × total = parts × 100, and its amount is volume × percentage / 100 (NaN for NaN) |
| AddRecipe.AmountTotal | src/pages/AddRecipe.jsx:45 | each amount is volume × pct / 100, so the amounts add up to volume × Σpct / 100 |
| AddRecipe.RatioRowsSums | src/pages/AddRecipe.jsx:42-48 | with a non-zero parts total the percentages add up to 100 and the amounts to the batch volume |
| AddRecipe.SumLabelIsPercentageSum | src/pages/AddRecipe.jsx:196 | the sidebar's `totalParts ? 100 : 0` is the true sum of the derived percentages in both cases |
| AddRecipe.SaveRow | src/pages/AddRecipe.jsx:79-83 | a saved ingredient keeps its id, gets `''` for a missing name and a numeric parts value (0 when invalid) |
| AddRecipe.Save | src/pages/AddRecipe.jsx:67-94 | refused without a user; otherwise the document under the new id with the cleaned title and tags, the coerced volume, the status and cover URL as typed, every row saved by `SaveRow` in order, the user as owner, no visibility field and no note, then `/r/<id>` |
| AddRecipe.SaveKeepsTotal | src/pages/AddRecipe.jsx:79-83 | coercing the rows on save keeps the parts total and makes every parts value numeric |
| RecipeEditor.InitialState | src/pages/RecipeEditor.jsx:29-36 | before loading, the form holds an empty title, tags, note and cover URL, volume 500, `draft`, private and no rows |
| RecipeEditor.Load | src/pages/RecipeEditor.jsx:42-58 | a missing id or document is an error; otherwise each stored field is kept: the title, status, note and cover URL (or their defaults when empty), the volume unless missing or zero (then 500), the tags joined with `,`, the stored rows (or `[]`), and visibility true only for a stored `true` |
| RecipeEditor.PercentageRows | src/pages/RecipeEditor.jsx:73-78 | each row's percentage is coerced, never rescaled; its amount is volume × pct / 100, NaN for a non-numeric volume |
| RecipeEditor.PercentageRowsAppend | src/pages/RecipeEditor.jsx:73-78 | the derivation works row by row |
| RecipeEditor.AmountsFollowTotalPercentage | src/pages/RecipeEditor.jsx:68-78 | the amounts add up to volume × `totalPercentage` / 100, with no rescaling to 100 |
| RecipeEditor.AmountsSum | src/pages/RecipeEditor.jsx:68-71 | the amounts add up to volume × (plain sum of the coerced percentages) / 100 |
| RecipeEditor.AddRow | src/pages/RecipeEditor.jsx:81-82 | exactly one row with the fresh id, an empty name and percentage 0 is appended; `totalPercentage` is unchanged |
| RecipeEditor.SetPercentage | src/pages/RecipeEditor.jsx:309-313 | only the edited row's percentage changes, to the coerced value; every other row and field is unchanged |
| RecipeEditor.SetPercentageTotal | src/pages/RecipeEditor.jsx:309-313 | the edit moves `totalPercentage` by exactly the difference between the new and the old coerced value |
| RecipeEditor.SaveRow | src/pages/RecipeEditor.jsx:112-116 | a saved row gets the given id, `''` for a missing name, no parts and the coerced percentage |
| RecipeEditor.Save | src/pages/RecipeEditor.jsx:99-125 | refused without a user; otherwise the form merged into the stored document: cleaned title, tags and note, the coerced volume, status, cover URL and visibility as in the form, every row with its id, its name or `''`, no parts and the coerced percentage, and the stored owner kept |
| RecipeEditor.Duplicate | src/pages/RecipeEditor.jsx:127-156 | a new document titled `(trimmed title or Untitled) + ' (Copy)'`, `draft`, private, owned by the acting user, with the trimmed note and the cover URL copied, whose rows keep count, order, names and percentages under fresh ids and carry no parts, then `/r/<new id>/edit` |
| RecipeEditor.DuplicateIndependent | src/pages/RecipeEditor.jsx:140-146 | with fresh ids the duplicate shares no document or row id with its source and its row ids are pairwise distinct |
| RecipeView.Ingredients | src/pages/RecipeView.jsx:92 | missing ingredients read as the empty list |
| RecipeView.DisplayVolume | src/pages/RecipeView.jsx:200 | the what-if volume when set, otherwise the stored volume |
| RecipeView.RowMl | src/pages/RecipeView.jsx:201 | ml × 100 = volume × pct when both are numbers; a NaN product shows as 0 |
| RecipeView.ViewRows | src/pages/RecipeView.jsx:196-201 | one line per ingredient, numbered from 1, with its name, its parts share of the total as percentage and `RowMl` of the display volume and that percentage as amount; a zero parts total shows 0 % and 0 ml everywhere |
| RecipeView.ViewRowAt | src/pages/RecipeView.jsx:197-201 | with a non-zero total, a line's percentage is a number exactly when its parts are, percentage × total = parts × 100, and amount × 100 = display volume × percentage (0 when either is NaN) |
| RecipeView.ViewPercentagesSum | src/pages/RecipeView.jsx:197-199 | with numeric parts and a non-zero total the shown percentages add up to 100 |
| RecipeView.WhatIfIgnoresStoredVolume | src/pages/RecipeView.jsx:200-201 | with a what-if volume set, the stored volume plays no part in the table |
| RecipeView.FallbackIsStoredVolume | src/pages/RecipeView.jsx:200 | without a what-if volume the table is the one the stored volume gives as a what-if volume |
| RecipeView.RowMlLinear | src/pages/RecipeView.jsx:201 | for a fixed percentage the amount scales linearly with the display volume |
| RecipeView.SetCustomVolume | src/pages/RecipeView.jsx:152 | 0 or a non-number clears the what-if volume; any other number sets it |
| RecipeView.ClearedWhatIfShowsStored | src/pages/RecipeView.jsx:151-152 | clearing the what-if volume brings the table back to the stored volume |
| RecipeView.CanEdit | src/pages/RecipeView.jsx:225 | the Edit action is offered exactly when a user is signed in and is the recipe's owner |
| IngredientTable.RemoveRow | src/pages/components/IngredientTable.jsx:5 | no row with the id remains and the list does not grow |
| IngredientTable.RemoveRowKeepsOthers | src/pages/components/IngredientTable.jsx:5 | every row with another id keeps its number of occurrences |
| IngredientTable.RemoveRowAppend | src/pages/components/IngredientTable.jsx:5 | removal distributes over concatenation, so the remaining rows keep their relative order |
| IngredientTable.RemoveAbsentIff | src/pages/RecipeEditor.jsx:84-85 | removing an id leaves the list equal exactly when no row carries it |
| IngredientTable.RemoveRowIdempotent | src/pages/components/IngredientTable.jsx:5 | removing the same id twice is removing it once |
| IngredientTable.SetName | src/pages/components/IngredientTable.jsx:30-34 | only the edited row's name changes; the length and every other row are unchanged |
| IngredientTable.SetNameTotal | src/pages/RecipeEditor.jsx:294-298 | a name edit changes neither the parts total nor the percentage total |
| IngredientTable.SetParts | src/pages/components/IngredientTable.jsx:45-49 | only the edited row's parts change, to the coerced value; its id and name and all other rows are unchanged |
| IngredientTable.SetPartsTotal | src/pages/components/IngredientTable.jsx:47 | the edit moves the parts total by exactly the difference between the new and the old coerced value |
| IngredientTable.EditsKeepPartsNumeric | src/pages/components/IngredientTable.jsx:45-49 | name edits, parts edits and removals keep every parts value numeric |
| IngredientTable.Numbered | src/pages/components/IngredientTable.jsx:21-23 | the row numbers are 1..n in list order |
| Search.HandleSearch | src/pages/Search.jsx:24-65 | blank id, then no sign-in, before any lookup; the lookup and the navigation use the trimmed id; not found, a failed lookup showing its own message or `Error searching for recipe` when that is empty, `isPublic === false`, otherwise `/r/<id>/view` |
| Search.AlertFor | src/pages/Search.jsx:160-178 | no alert for an empty message; a message mentioning `private` is a warning with the private banner; otherwise an error, with the not-found banner exactly when it mentions `not found` |
| Search.PrivateAlert | src/pages/Search.jsx:162-169 | the private message gets the warning and the private banner |
| Search.NotFoundAlert | src/pages/Search.jsx:170-174 | the not-found message gets the error with the not-found banner, distinct from the private one |
| Search.EnterIdAlert | src/pages/Search.jsx:175-177 | the blank-id message is shown as a plain error |
| Search.SignInAlert | src/pages/Search.jsx:175-177 | the sign-in message is shown as a plain error |
| Search.OnlyExplicitFalseIsPrivate | src/pages/Search.jsx:51-56 | only `isPublic === false` refuses; a record without the field opens like a public one |
| RecipePdf.MetaLines | src/utils/generateReceipePdf.js:29-33 | the volume line always comes first; a status line exactly when the status is non-empty and a tags line exactly when there are tags; 1 to 3 lines |
| RecipePdf.TagsLineRoundTrip | src/utils/generateReceipePdf.js:32 | the tags joined with `, ` in order parse back to the same well-formed list |
| RecipePdf.BodyRows | src/utils/generateReceipePdf.js:53-55 | one body line per row, numbered i+1 in order, `—` for a missing name, coerced numbers; fails exactly when a cell holds a non-number |
| RecipePdf.FooterTotalsAreSums | src/utils/generateReceipePdf.js:56-58 | each footer total is the plain sum of its column's coerced values |
| RecipePdf.FooterMatchesBody | src/utils/generateReceipePdf.js:56-58 | each footer total is the coerced column sum and equals the sum of the printed body cells |
| RecipePdf.FooterTotalsAppend | src/utils/generateReceipePdf.js:56-58 | the footer totals add over concatenated row lists |
| RecipePdf.NotesLines | src/utils/generateReceipePdf.js:44-48 | the notes appear exactly when they contain a non-blank character, as at most the first five wrapped lines |
| RecipePdf.Heading | src/utils/generateReceipePdf.js:27 | the heading is the title, or `Untitled Recipe` without one |
| RecipePdf.PdfName | src/utils/generateReceipePdf.js:23 | the document title (and, with fallback `recipe`, the file name at line 80) is the title, or the fallback, followed by `.pdf` |
| RecipePdf.TitlesAgree | src/utils/generateReceipePdf.js:80 | document title, file name and heading agree exactly when there is a title |
| RecipePdf.PageFooter | src/utils/generateReceipePdf.js:73-74 | `Updated: …` and `User: …`, each empty exactly when its text is missing |
| RecipePdf.Generate | src/utils/generateReceipePdf.js:20-81 | it fails exactly when a cell cannot be printed; otherwise the body is `BodyRows` of the input rows, the totals are `FooterTotals` and equal the sums of their printed columns, and the heading, document title, file name, meta lines, notes and page footer are those of `Heading`, `PdfName`, `MetaLines`, `NotesLines` and `PageFooter` |
| RecipeList.FirstTags | src/pages/RecipeList.jsx:27 | a card shows the first min(3, n) tags, as a prefix of the stored list |
| RecipeList.Card | src/pages/RecipeList.jsx:22-32 | the card links to `/r/<id>` and shows the stored title, status, volume and cover when present, falling back to `Untitled`, `draft`, volume 0 and the placeholder image |
| RecipeList.CardTags | src/pages/RecipeList.jsx:27 | at most three chips, the stored tags in order, all of them exactly when there are at most three |
| AppShell.Initials | src/layout/AppShell.jsx:12-15 | one letter: `U` for a blank name, otherwise the upper-cased first non-blank character |
| AppShell.InitialsOfFirstWord | src/pages/ProfileEdit.jsx:24-27 | the initial of a name is the initial of its first whitespace-delimited word |
| AppShell.InitialsSkipBlanks | src/layout/AppShell.jsx:13 | leading blanks do not change the initial |
| AppShell.DisplayName | src/layout/AppShell.jsx:21 | the profile name, else the e-mail, else `User`; never empty |
| AppShell.AnonymousAvatar | src/layout/AppShell.jsx:21 | with neither a name nor an e-mail the avatar shows `U` |
| AppShell.HomeLink | src/layout/AppShell.jsx:42 | `/` when signed in, `/signup` otherwise |
| ProfileEdit.CheckPassword | src/pages/ProfileEdit.jsx:84-90 | nothing for an empty password; a mismatch before the length check; fewer than 6 code units rejected; otherwise the password is set |
| ProfileEdit.PasswordOrder | src/pages/ProfileEdit.jsx:85-90 | a short mismatched password is reported as a mismatch |
| ProfileEdit.SavedDisplayName | src/pages/ProfileEdit.jsx:74 | the trimmed input, or the current name when the input is blank |
| ProfileEdit.HeaderOnceReread | src/pages/ProfileEdit.jsx:98 | when the save reaches the profile write (no password rejection) and the saved profile is read again, a non-blank typed name shows in the header trimmed, with the initial of the typed name |
| ProfileEdit.Extension | src/pages/ProfileEdit.jsx:66 | the extension holds no dot |
| ProfileEdit.ExtensionAfterLastDot | src/pages/ProfileEdit.jsx:66 | the extension is the text after the last dot, or the whole name without a dot |
| ProfileEdit.UploadFileName | src/pages/ProfileEdit.jsx:66 | the upload name keeps the picture's extension (its full layout is `ProfileEdit.UploadFileNameParts`) |
| ProfileEdit.UploadFileNameParts | src/pages/ProfileEdit.jsx:66 | the upload name is exactly `<uid>_`, the decimal timestamp (which reads back as the timestamp), `.` and the extension, with nothing in between |
| Flows.EditorSavedRecipeShowsZero | src/pages/RecipeView.jsx:196-201 | a recipe saved by the edit page shows 0 % and 0 ml on every row of the view, whatever the what-if volume |
| Flows.CreatedRecipeViewAgrees | src/pages/RecipeView.jsx:196-201 | the view shows a created recipe with the percentages and amounts the create page showed |
| Flows.CreatedRecipeIsFound | src/pages/Search.jsx:52 | a recipe created on the create page is opened by the lookup page |
| Flows.DuplicateIsPrivate | src/pages/RecipeEditor.jsx:139 | a duplicate is refused by the lookup page |
| Flows.EditorSaveMakesPrivate | src/pages/RecipeEditor.jsx:57 | loading and saving a recipe without a visibility field in the edit page makes the lookup page refuse it |
| Flows.EditorKeepsTags | src/pages/RecipeEditor.jsx:54 | loading and saving in the edit page keeps a well-formed tag list |
| Flows.CreatedRecipeCard | src/pages/RecipeList.jsx:22-27 | the card of a created recipe links where the create page went, with its cleaned title and first three tags |
| Flows.CreatorCanEdit | src/pages/RecipeView.jsx:225 | a recipe written by the create page (owner set at src/pages/AddRecipe.jsx:84) can be edited by exactly the viewers signed in as its author |
| Flows.DuplicateOwnerCanEdit | src/pages/RecipeView.jsx:225 | a duplicate (owner set at src/pages/RecipeEditor.jsx:145) can be edited by exactly the viewers signed in as the user who made it |
| Flows.EditorSaveKeepsEditRight | src/pages/RecipeEditor.jsx:102-119 | the merge save writes no owner, so the same viewers can edit the recipe before and after the save, whoever saved it |

## Left out

- Document store, file storage and identity service calls (`getDoc`, `setDoc`, `updateDoc`, `uploadBytes`, `getDownloadURL`, `serverTimestamp`, sign-in and sign-up, log-out): the store's answer is a parameter (`Search.Lookup`, the `found` document of `RecipeEditor.Load`), and timestamps are not modelled.
- The list page's query and ordering (src/pages/RecipeList.jsx:13): these belong to the document store.
- The async load effects, their loading flags and stale responses: not modelled.
- Routing (src/App.jsx) and the navigation calls: a navigation is a path string.
- The cover upload handlers: these are storage I/O.
- The order of side effects in the profile save: the profile and e-mail updates run before the password check. Only the checks are modelled, as a pure function.
- Randomness in `uuid()`: ids are parameters, with freshness stated as `RecipeEditor.Fresh`.
- IEEE double rounding, `toFixed(2)` and number-to-string formatting: values are exact reals. The printed batch volume is a string parameter of `RecipePdf.MetaLines`.
- Numeric strings, `null`, `NaN` and `Infinity` as stored values: a raw value is missing, a number, or a value whose `Number(...)` is NaN.
- jsPDF layout, fonts, the cover image fetch (`urlToDataUrl`) and `splitTextToSize`: the wrapped notes are a parameter of `RecipePdf.NotesLines`.
- The rendering components (theme, empty state, confirm dialog, recipe card date formatting): these are presentation only.
- ProfileEdit.HeaderOnceReread: the header reads the profile fetched on a sign-in state change (src/context/UserContext.jsx:14-25), and the profile save does not refresh it, so the new name appears only after the next sign-in or reload; a save that a password check rejects (src/pages/ProfileEdit.jsx:84-92) or whose e-mail change fails (src/pages/ProfileEdit.jsx:79-81) never reaches the profile write at lines 95-101, so the header keeps the old name even after a reload, although the sign-in display name changed at line 73; the model states what the header shows once a completed save is read again, not when.
- AppShell.Initials: `toUpperCase` is modelled on ASCII letters only. Characters are Unicode scalar values, so a name starting with a surrogate pair yields its whole first character, not half of it.
- ProfileEdit.CheckPassword: the length is counted in UTF-16 code units (`Text.Utf16Length`), which matches `password.length`.
- IngredientTable.SetName, IngredientTable.SetParts, RecipeEditor.SetPercentage: require an index inside the list. The table only produces such indices, and JavaScript would append a sparse element for any other.
- RecipeEditor.Duplicate: requires one fresh id per row, as `uuid()` is called once per row.
- The batch-volume setters (src/pages/AddRecipe.jsx:132, src/pages/RecipeEditor.jsx:203): modelled as `Js.Coerce` of the input, not as separate members.
- The view's markdown rendering of the note, and its status and creation-date display: presentation only.
