# EXIM actor sheet — rules model

EXIM is a Foundry VTT game system whose whole code is one actor-sheet class
(`EximActorSheet`, `system/main.js`). Most of the class wires the sheet's HTML
to the host. Under that wiring sit four small rules, and this project models
them as pure Dafny functions and proves properties about them:

- **Die degradation** (`_degradeDie`). An aspect holds a die (`"d20"` … `"d4"`).
  Each step moves it down the fixed order `d20, d12, d10, d8, d6, d4`. A `d4`
  becomes the exhaustion marker `"d0"`. Any string not in the order is returned
  unchanged. Module `Dice`.
- **Roll resolution** (`_rollAspect`). A missing, empty, `"-"` or `"d0"` aspect
  is refused with a warning. Anything else is rolled as `"1" + die`. A missing
  total counts as 0. A total of 3 or less writes the degraded die back. A
  higher total leaves the die alone. Module `Roll`.
- **Item creation** (the create-button handler and `_createItem`). The requested
  type is trimmed, lower-cased and clamped to `objet`, `arme` or `armure`, with
  `objet` as the default. The new item is named after the type with a capital
  first letter, with `qty` 1, `poids` 0 and an empty description. Modules
  `JsText` (the JavaScript string operations) and `Items`.
- **Drop stacking** (`_onDrop`). A dropped item with the same name and type as
  an inventory entry adds its quantity to the first such entry. A missing
  quantity counts as 1. Otherwise the item is appended. Module `Inventory`.

`Wrappers` supplies `Option`, which stands for JavaScript's `undefined`/`null`.

Inputs that come from the host become parameters:

- the aspect's current value (`Option<string>`);
- the roller's total (`Option<int>`);
- the `data-type` attribute as read through `dataset` and through jQuery;
- the drag data's `type` and `uuid`;
- the item the uuid resolves to;
- the id the host gives a newly created item.

The functions return what the code would write: the resolution and the new
aspect value, the creation payload, or the inventory after the drop.

The guard refuses only a missing or empty value, `"-"` and `"d0"`. Any other
string, such as `"d100"`, is rolled, and a low total leaves it unchanged
(`Roll.UnknownDieIsRolled`). There is no error result. `Dice.StepsLeft` is 0
for the marker and for every string off the table.

## Model

| member | source | states |
|---|---|---|
| Dice.IndexOf | system/main.js:150 | `indexOf` gives -1 exactly when the value is absent. Otherwise it gives a position holding the value with no earlier occurrence. |
| Dice.Degrade | system/main.js:148-154 | A die at table position i < 5 becomes the entry at i + 1. `"d4"` becomes `"d0"`. Every string not in the table comes back unchanged. |
| Dice.DegradeTable | system/main.js:149-153 | Row by row: d20→d12, d12→d10, d10→d8, d8→d6, d6→d4, d4→d0. |
| Dice.DegradeFixedPoints | system/main.js:150-151 | The marker `"d0"`, the dash `"-"` and the empty string are fixed points. |
| Dice.StepsLeft | system/main.js:149-152 | Steps to exhaustion are at most 6, positive exactly for table dice, and 6 − i for the die at position i. |
| Dice.DegradeLowersSteps | system/main.js:150-153 | One step takes a table die to a table die or the marker, with exactly one step fewer left. No step moves a die up. |
| Dice.OffTableStays | system/main.js:151 | A string off the table, the marker included, is unchanged by any number of steps. |
| Dice.DegradeTimesChain | system/main.js:148-154 | n steps from position i of the chain d20…d4, d0 land at position min(i + n, 6). |
| Dice.ReachesExhaustion | system/main.js:148-154 | From a table die or the marker, n steps reach `"d0"` if and only if n is at least the die's steps left. |
| Dice.ExhaustedWithinSix | system/main.js:148-154 | Six or more steps exhaust every table die. A d20 is not exhausted after five. |
| Roll.Notation | system/main.js:128 | The roll formula is `"1"` followed by the die, e.g. `"1d8"`. |
| Roll.Resolve | system/main.js:120-138 | Refused exactly for a missing, `""`, `"-"` or `"d0"` aspect. Otherwise rolled with formula `"1" + die` and a total defaulting to 0. Success holds iff total > 3. A failure yields the degraded die and a success keeps the die. |
| Roll.AspectAfter | system/main.js:123-137 | A refusal and a success leave the aspect's value unchanged. A failure stores the degraded die. |
| Roll.ThresholdExamples | system/main.js:132-138 | A d8 rolling 3 fails and becomes d6. A d8 rolling 4 succeeds and stays d8. |
| Roll.LastDieExample | system/main.js:132-134 | A d4 rolling 1 fails and becomes `"d0"`. |
| Roll.MissingTotalExample | system/main.js:129 | A missing total is resolved as a failing 0. |
| Roll.RefusedExamples | system/main.js:123-126 | `"d0"` and a missing aspect are refused whatever the total. |
| Roll.UnknownDieIsRolled | system/main.js:123 | A die off the table other than `""`, `"-"` and `"d0"` is still rolled. A low total leaves it as it was. |
| Roll.ResolveNeverRaises | system/main.js:132-138 | A roll never raises a die's steps left. A failed roll of a table die lowers them by exactly one. |
| Roll.FailuresExhaust | system/main.js:123-134 | Failing at least as many rolls in a row as a die has steps left ends on `"d0"`, and the next click is refused. |
| Roll.SuccessesKeep | system/main.js:136-137 | Any run of successful rolls leaves the aspect unchanged. |
| JsText.TrimStart | system/main.js:62 | The result is a suffix. Only white space was dropped, and the result does not start with white space. |
| JsText.TrimEnd | system/main.js:62 | The result is a prefix. Only white space was dropped, and the result does not end with white space. |
| JsText.Trim | system/main.js:62 | `trim` keeps the slice after the leading white space. Everything dropped is white space, and the result neither starts nor ends with it. |
| JsText.TrimUnique | system/main.js:62 | Any white space + r + white space split, where r has no white space at either end, has r as its trim. |
| JsText.ToLower | system/main.js:62 | Lower-casing keeps the length, maps each character, and leaves no capital letter. |
| JsText.ToLowerIdempotent | system/main.js:62 | Lower-casing twice equals lower-casing once. |
| JsText.Capitalize | system/main.js:110 | Same length, first character upper-cased, the rest unchanged. The empty string stays empty. |
| JsText.CapitalizeRoundTrip | system/main.js:110 | Lower-casing the capitalised form of a lower-case string gives it back. |
| Items.RequestedKind | system/main.js:61 | The `dataset` value wins, then the attribute, then `"objet"`. |
| Items.NormalizeKind | system/main.js:62-63 | The result is always `objet`, `arme` or `armure`. It is the trimmed lower-cased input when that is one of them and `objet` otherwise. |
| Items.NormalizeIdempotent | system/main.js:62-63 | Normalising a normalised type changes nothing. |
| Items.NewItem | system/main.js:109-113 | The payload has the given type, `qty` 1, `poids` 0 and an empty description. Its name is the type with a capitalised first letter. |
| Items.CreateItem | system/main.js:60-64 | A create click creates the normalised requested type, always one of the three. The payload is exactly the new-item payload for that type: the capitalised name, `qty` 1 and `poids` 0. The name lower-cases back to the type. |
| Items.NewItemNames | system/main.js:110 | The three names are `Objet`, `Arme`, `Armure`. |
| Items.PaddedKindExample | system/main.js:62-63 | `" ARME "` normalises to `arme`. |
| Items.UnknownKindExample | system/main.js:63 | An unknown type such as `potion` becomes `objet`. |
| Items.MissingKindExample | system/main.js:61 | A click with no type creates an `Objet` of type `objet`. |
| Inventory.Count | system/main.js:165 | A missing quantity counts as 1. A present one, 0 included, counts as itself. |
| Inventory.FindStack | system/main.js:163 | `find` returns the first entry with the same name and type, or nothing exactly when no entry matches. |
| Inventory.Drop | system/main.js:163-169 | With a match, the length is unchanged and only the first match's `qty` changes, to the sum of both counts. Without one, the result is the inventory plus exactly one appended item. |
| Inventory.DropConservesTotal | system/main.js:163-169 | Either way, the inventory's total quantity grows by exactly the dropped item's count. |
| Inventory.DropEntries | system/main.js:163-169 | The set of (name, type) pairs gains the dropped pair and nothing else, and loses none. |
| Inventory.DropTwiceStacks | system/main.js:163-169 | A drop adds at most one entry. Dropping the same item again always stacks. |
| Inventory.OnDrop | system/main.js:156-174 | Handed to the host unless the drag data is an `Item` with a non-empty uuid. Ignored when the uuid does not resolve. Otherwise the inventory becomes the drop's result. |

## Left out

- Tab switching, the active-tab flag, `getData` and `_applyTab` (`system/main.js:15-48`): DOM and host-flag plumbing.
- The host's persistence calls (`actor.update`, `createEmbeddedDocuments`, `updateEmbeddedDocuments`, `deleteEmbeddedDocuments`, `setFlag`, `fromUuid`). Only the values they would be given are modelled. The item-delete handler and the item-open handler are pure host calls.
- The dice roller `new Roll(...).evaluate`. Its total is a parameter, and `Roll.Notation` is the formula it would be given.
- The chat card HTML, localisation and `toMessage` (`system/main.js` lines 131, 135, 137 and 139-145), and the exhaustion warning notification. These are presentation only.
- Image picking, drag-start serialisation and the item field change handler (`system/main.js:80-106`): host glue.
- Hooks and Handlebars registration (`system/main.js:178-184`): host bootstrap.
- Inventory.Count: quantities are integers. The `Number(...)` coercion of non-numeric quantities, and the NaN it can produce, are not modelled.
- Inventory.Drop: an entry carries only id, name, type and quantity. Other item data copied on append is not represented.
- Roll.Resolve: an aspect value is a string or absent. Non-string values (numbers, booleans) that JavaScript truthiness would also judge are not modelled.
- JsText.ToLower: only ASCII letters are lower-cased. The clamp to `objet`, `arme`, `armure` is unaffected. Full Unicode lower-casing maps no non-ASCII character to any letter of those three words, and a string containing any other non-ASCII character is clamped to `objet` either way.
- JsText.Capitalize: only an ASCII first letter is upper-cased, so the length is always kept. JavaScript also upper-cases non-ASCII letters, and some of them grow (`"ß"` becomes `"SS"`). In this code only the three ASCII type names reach it.
