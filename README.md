# PatchMe patch editor, modelled in Dafny

PatchMe is a web storefront for custom embroidered patches. Its one piece of
logic is the patch editor (`PatchConstructor`): the state of the patch being
designed and the handlers its controls call. This project models that state
and those handlers and proves what they guarantee.

- `Design.dfy` (module `Design`): the value types `PatchDesign` and
  `PatchElement`, the initial design, the partial update `ElementPatch` with
  its spread-merge, and the four element-list transforms as pure functions:
  append, merge by id (`UpdateById`), filter by id (`RemoveById`) and set the
  selection flag (`SelectById`), plus the first-match lookup `FindById`. The
  lemmas state what each transform does element by element and which list
  invariants it keeps: unique ids, at most one selected element, and a tracked
  selection that agrees with the flags.
- `JsString.dfy` (module `JsString`): `String.prototype.trim` from section
  22.1.3.32 of ECMA-262, with the white-space and line-terminator sets of
  sections 12.2 and 12.3. The "add text" guard `!textInput.trim()` holds
  exactly when the input is blank.
- `Order.dfy` (module `Order`): the quantity clamps, the fold of any input
  sequence over the quantity, and the total.
- `ConstructorPage.dfy` (module `ConstructorPage`): class `PatchConstructor`.
  It has the fields `design`, `selectedElement`, `textInput` and `quantity`,
  and one method per handler. Each method's `ensures` gives the new state in
  terms of the old state and the pure transforms. The methods also keep
  `Valid()` (quantity at least one). Each states its own condition for
  keeping `Coherent()` (the list invariants): the add handlers need an id
  that no element and no tracked selection carries; `UpdateElement` needs a
  patch that sets neither `id` nor `selected`; `SelectElement` needs unique
  ids; `DeleteElement` and the design setters need nothing. `TextThenIconSession`
  walks through adding a text, adding an icon, selecting the text and
  deleting it, using only the contracts.

Modelling decisions:
- Element ids come from `Date.now()` in the code; here they are a parameter
  of `AddTextElement` and `AddIconElement`.
- JavaScript numbers for position, size, border width and font size are
  `real`, so `size / 2 - 50` is exact for every size; the quantity is an `int`.
- The element field `type` is named `kind` (`type` is a Dafny keyword).
- `Partial<PatchElement>` is `ElementPatch`, a record of `Option` fields.
- `Number.parseInt` is not modelled; `EnterQuantity` receives its result as
  `Option<int>`, with `None` standing for `NaN`.

What the code does and does not guarantee:
- The code does not enforce unique ids or a single selected element. Two
  elements added within the same millisecond share an id, and
  `selectElement` then flags both (`SelectByIdCount`: as many are selected as
  carry the id). An update may also set `id` or `selected`. The model
  therefore proves these invariants are preserved under stated conditions
  (fresh ids, a patch that sets neither field) rather than unconditionally.
- `addTextElement` takes no argument: it reads the pending input buffer, and
  `AddTextElement` does the same.
- `deleteElement` clears the tracked selection but leaves the other elements'
  `selected` flags as they were. So after deleting an unselected element, a
  flagged element can remain while no selection is tracked. `Coherent()`
  allows this, because it only constrains a tracked selection.

## Model

| member | source | states |
|---|---|---|
| `Design.MergeLaws` | apps/web/src/components/ConstructorPage.tsx:162 | the spread `{ ...el, ...updates }`: the empty patch changes nothing, one patch applied twice acts once, two patches in a row act as their combined spread |
| `Design.FindById` | apps/web/src/components/ConstructorPage.tsx:220 | a found element is in the list and carries the id |
| `Design.FindByIdFirst` | apps/web/src/components/ConstructorPage.tsx:220 | `find` returns nothing exactly when no element has the id, otherwise the first element that has it |
| `Design.UpdateById` | apps/web/src/components/ConstructorPage.tsx:162 | the map keeps the list's length |
| `Design.UpdateByIdAt` | apps/web/src/components/ConstructorPage.tsx:162 | element by element, in the same order: elements with the id get exactly the patched fields and keep the rest; all others are unchanged |
| `Design.UpdateByIdAbsent` | apps/web/src/components/ConstructorPage.tsx:159-164 | updating an id no element has leaves the list unchanged |
| `Design.UpdateByIdTwice` | apps/web/src/components/ConstructorPage.tsx:159-164 | two successive updates of one element equal one update with both patches spread together, unless the first renames it |
| `Design.UpdateByIdKeepsInvariants` | apps/web/src/components/ConstructorPage.tsx:159-164 | a patch that sets neither `id` nor `selected` keeps ids unique, at most one element selected, and the tracked selection in agreement |
| `Design.RemoveById` | apps/web/src/components/ConstructorPage.tsx:169 | the filter shortens the list by exactly the number of elements carrying the id |
| `Design.RemoveByIdConcat` | apps/web/src/components/ConstructorPage.tsx:169 | the filter distributes over concatenation, so the survivors keep their relative order |
| `Design.RemoveByIdMembers` | apps/web/src/components/ConstructorPage.tsx:169 | an element survives exactly when it was in the list and its id differs |
| `Design.RemoveByIdAbsent` | apps/web/src/components/ConstructorPage.tsx:166-172 | deleting an absent id leaves the list unchanged |
| `Design.RemoveByIdPresent` | apps/web/src/components/ConstructorPage.tsx:166-172 | with unique ids, deleting a present id removes exactly one element |
| `Design.RemoveByIdKeepsConsistent` | apps/web/src/components/ConstructorPage.tsx:166-172 | deleting keeps ids unique and at most one element selected |
| `Design.SelectById` | apps/web/src/components/ConstructorPage.tsx:178-181 | setting the flags keeps the list's length |
| `Design.SelectByIdAt` | apps/web/src/components/ConstructorPage.tsx:178-181 | element by element: `selected` becomes `el.id == id`, every other field is kept |
| `Design.SelectByIdCount` | apps/web/src/components/ConstructorPage.tsx:178-181 | as many elements end up selected as carry the id (two if an id was duplicated) |
| `Design.SelectByIdExactlyOne` | apps/web/src/components/ConstructorPage.tsx:174-183 | with unique ids and the id present, exactly one element is selected, and it is the one with that id |
| `Design.SelectByIdKeepsInvariants` | apps/web/src/components/ConstructorPage.tsx:174-183 | with unique ids, selecting any id keeps the list consistent and the flags in agreement with the tracked id |
| `Design.AppendKeepsInvariants` | apps/web/src/components/ConstructorPage.tsx:131 | appending an unselected element with a fresh id keeps ids unique, at most one selected, and the tracked selection in agreement |
| `JsString.TrimStart` | apps/web/src/components/ConstructorPage.tsx:112 | the result is the suffix left after dropping a blank prefix, and it does not start with white space |
| `JsString.TrimEnd` | apps/web/src/components/ConstructorPage.tsx:112 | the result is the prefix left after dropping a blank suffix, and it does not end with white space |
| `JsString.Trim` | apps/web/src/components/ConstructorPage.tsx:112 | `trim()` yields the empty (falsy) string exactly when the input is blank |
| `Order.Decremented` | apps/web/src/components/ConstructorPage.tsx:530 | the minus button lowers the quantity by one but never below one |
| `Order.Entered` | apps/web/src/components/ConstructorPage.tsx:536 | a typed quantity is taken when it is at least one; `NaN`, zero and negatives become one |
| `Order.QuantityStaysPositive` | apps/web/src/components/ConstructorPage.tsx:530-539 | from a positive start, any sequence of minus, plus and typed entries leaves the quantity at least one |
| `Order.Total` | apps/web/src/components/ConstructorPage.tsx:587 | the total is exactly `150 * quantity`, and at least 150 |
| `ConstructorPage.PatchConstructor.constructor` | apps/web/src/components/ConstructorPage.tsx:96-108 | the editor opens on a shield, `#2D5016` on `#FFD700`, border 3, size 200, no elements, no selection, empty input, quantity 1 |
| `ConstructorPage.PatchConstructor.SelectedElementData` | apps/web/src/components/ConstructorPage.tsx:220 | the panel element exists exactly when a selection is tracked and some element carries it; it is then the first element carrying that id |
| `ConstructorPage.PatchConstructor.SetTextInput` | apps/web/src/components/ConstructorPage.tsx:322 | typing replaces the pending input and nothing else |
| `ConstructorPage.PatchConstructor.AddTextElement` | apps/web/src/components/ConstructorPage.tsx:111-134 | blank input: nothing changes. Otherwise one element is appended after the unchanged old ones: a text element with the untrimmed input, at `(size/2-50, size/2-10)`, 100x20, white, font size 16, Arial, rotation 0, unselected. The input is cleared and the other design fields are kept |
| `ConstructorPage.PatchConstructor.AddIconElement` | apps/web/src/components/ConstructorPage.tsx:136-157 | one element is appended after the unchanged old ones: an icon named `name`, at `(size/2-15, size/2-15)`, 30x30, `#FFD700`, rotation 0, unselected. The other design fields are kept |
| `ConstructorPage.PatchConstructor.UpdateElement` | apps/web/src/components/ConstructorPage.tsx:159-164 | the elements become the merge-by-id of the old ones; an unknown id changes nothing; selection and the other design fields are kept |
| `ConstructorPage.PatchConstructor.DeleteElement` | apps/web/src/components/ConstructorPage.tsx:166-172 | the elements become the old ones without those carrying the id, fewer by their number; the tracked selection becomes none unconditionally |
| `ConstructorPage.PatchConstructor.SelectElement` | apps/web/src/components/ConstructorPage.tsx:174-183 | the tracked selection becomes the id and the flags are reset to match it; with unique ids and the id present, exactly one element is selected |
| `ConstructorPage.PatchConstructor.SetShape` | apps/web/src/components/ConstructorPage.tsx:281 | replaces only the shape; the elements are untouched |
| `ConstructorPage.PatchConstructor.SetSize` | apps/web/src/components/ConstructorPage.tsx:294 | replaces only the size; the elements are untouched |
| `ConstructorPage.PatchConstructor.SetBorderWidth` | apps/web/src/components/ConstructorPage.tsx:306 | replaces only the border width; the elements are untouched |
| `ConstructorPage.PatchConstructor.SetBackgroundColor` | apps/web/src/components/ConstructorPage.tsx:437 | replaces only the background colour; the elements are untouched |
| `ConstructorPage.PatchConstructor.SetBorderColor` | apps/web/src/components/ConstructorPage.tsx:451 | replaces only the border colour; the elements are untouched |
| `ConstructorPage.PatchConstructor.ApplyTemplate` | apps/web/src/components/ConstructorPage.tsx:624-630 | replaces only the background and border colours, with the template's; the elements are untouched |
| `ConstructorPage.PatchConstructor.DecrementQuantity` | apps/web/src/components/ConstructorPage.tsx:530 | the quantity becomes `max(1, q - 1)` and stays at least one |
| `ConstructorPage.PatchConstructor.IncrementQuantity` | apps/web/src/components/ConstructorPage.tsx:539 | the quantity grows by exactly one and stays at least one |
| `ConstructorPage.PatchConstructor.EnterQuantity` | apps/web/src/components/ConstructorPage.tsx:536 | the quantity becomes the clamped typed value and is at least one |
| `ConstructorPage.PatchConstructor.Total` | apps/web/src/components/ConstructorPage.tsx:591 | the displayed total is exactly `150 * quantity`, hence at least 150 |

## Left out

- Rendering: the JSX, `getShapeStyle`'s CSS (clip-path polygons, border radii, the rectangle's `size * 1.5` width) and the selection ring are presentation only.
- The icon glyph lookup by name at render time and the lucide icon components are foreign components. An icon element stores only its name, and so does the model.
- `Date.now()` is a clock. Ids are passed in, and freshness appears only as a hypothesis of the invariant-preservation clauses.
- `Number.parseInt` is a foreign parser. Its result is an input; results too large to be exact integers in floating point are not modelled.
- Floating-point rounding of JavaScript numbers is not modelled (reals are exact).
- A `Partial` update that sets a field explicitly to `undefined` cannot be expressed. `ElementPatch` can only set a field or leave it alone.
- The active tab (`activeTab`) is UI navigation with no logic.
- The unused `canvasRef` is not modelled.
- The unwired controls have no behaviour: save, export, order, undo, redo, reset, the mounting select, the add-on checkboxes and "add to cart". The total therefore depends on the quantity alone.
- The home page, the Vite counter in `App.tsx` and the router configuration hold no editor logic.
- Slider ranges (size 100..300 in steps of 10, border 0..10, font 8..48, icon 16..80) are enforced by the widgets, not by the editor state. The setters accept any value, as the code does.
