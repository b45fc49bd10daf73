# Catering material planning — a Dafny model

This project models the planning core of the Kerala Catering Service page
(`CateringInventorySystem` in `src/cat.jsx`). The user picks dishes and
serving counts. The page works out how much of each raw material the plan
needs from fixed per-serving recipes. It compares those needs with a fixed
stock table and lists the materials to buy.

What is modelled:

- **Tables** (`tables.dfy`): the recipe table (dish → material → kg per
  serving), the stock table (material → kg), the selection (dish → servings)
  and the derived per-material tables. They are Dafny maps. Quantities are
  exact `real`s and serving counts are unbounded `int`s. `ValueOrZero` is the
  `table[key] || 0` idiom.
- **Selection** (`selection.dfy`, module `DishSelection`): the three updates
  of the selection. These are adding from the dropdown, setting a count
  (where a count ≤ 0 removes the dish) and removing a dish. It also holds the
  `totalDishes` sum, with its laws under each update.
- **Servings text box** (`servings_input.dfy`, module `ServingsInput`): how
  `parseInt(value) || 0` turns the input's value into a count. It reads an optional
  sign and the leading run of digits. No digits reads as 0, and a count of 0
  removes the dish.
- **Requirements** (`requirements.dfy`): the requirement table is specified
  as a map equation. For each material, it is the sum over the selected
  dishes with a positive count of per-serving quantity × servings. The two
  nested `forEach` loops of the effect are methods proved to build exactly
  that table.
- **Shortages** (`shortages.dfy`): the shortage loop of the effect, and the
  "Need to Purchase" and "Available in Stock" counts.
- **Session** (`planning.dfy`, class `PlanningSession`): the component's
  state. The fields are `selectedDishes`, `materialRequirements` and
  `shortage`, and the recipe and stock tables are constants. Each event
  handler updates the selection and then recomputes both tables explicitly.
  `Valid()` holds after every handler. It says every count is ≥ 1, every
  selected dish is a recipe dish, and the published tables belong to the
  current selection.
- **Sample data** (`sample_data.dfy`, `sample_session.dfy`): the page's six
  recipes and twenty stock entries. Also what the model computes for
  Biriyani × 200: 30 kg of chicken against 25 kg in stock, so the only
  purchase is 5 kg of chicken and 5 materials are available.

Where the component and a plain reading of its purpose differ, the model
follows the code:

- `addDishFromDropdown` itself does not check that the chosen name is a
  recipe dish. Only the dropdown, which lists unselected recipe dishes, keeps
  other names out. So `AddDish` has no recipe check. The session method
  instead requires the choice to be empty or a recipe dish, which is what the
  dropdown guarantees.
- The page has no operation that deducts the plan from stock. The stock
  table has no setter, and the "Export Shopping List" button has no handler.
  The model has neither.

## Model

| member | source | states |
|---|---|---|
| DishSelection.AddDish | src/cat.jsx:80-88 | A chosen dish that is not yet selected enters with 1 serving. An empty choice or an already selected dish leaves the selection unchanged. Every other dish's entry is untouched, and counts ≥ 1 stay ≥ 1. |
| DishSelection.UpdateQuantity | src/cat.jsx:91-100 | A count ≤ 0 removes the dish. A positive count becomes the dish's entry. Every other dish is unchanged, counts ≥ 1 stay ≥ 1, and updating a selected dish adds no new dish. |
| DishSelection.RemoveDish | src/cat.jsx:93 | The dish is no longer selected, the other entries are unchanged, and nothing fails if the dish was absent. |
| DishSelection.KnownDishesPreserved | src/cat.jsx:171-175 | The selection keeps naming only recipe dishes: after adding a dropdown choice, after updating a selected dish, and after removing one. |
| DishSelection.UpdateQuantityIdempotent | src/cat.jsx:95-98 | Setting the same count twice gives the same selection as setting it once. |
| DishSelection.TotalServings | src/cat.jsx:128 | `totalDishes` is 0 for the empty selection, and with every count ≥ 1 it is at least the number of selected dishes. |
| DishSelection.ServingSum | src/cat.jsx:128 | When every count is ≥ 1, the sum of the counts of a set of dishes is at least the number of dishes. |
| DishSelection.ServingSumRemove | src/cat.jsx:128 | Any selected dish can be taken out of the servings sum first, so the total does not depend on the order of the entries. |
| DishSelection.TotalServingsSplit | src/cat.jsx:128 | Total servings equal a selected dish's count plus the total after removing that dish. |
| DishSelection.TotalServingsAfterAdd | src/cat.jsx:128 | Adding from the dropdown raises total servings by exactly 1 when a dish is added, and by 0 otherwise. |
| DishSelection.TotalServingsAfterUpdate | src/cat.jsx:128 | After setting a dish's count to q, total servings are the other dishes' total plus q, or plus 0 when q ≤ 0 removed the dish. |
| DishSelection.TotalServingsBounds | src/cat.jsx:128 | With all counts ≥ 1, total servings are at least the number of selected dishes, and they are 0 exactly when nothing is selected. |
| ServingsInput.LeadingDigits | src/cat.jsx:223 | parseInt reads the longest prefix of decimal digits: a prefix of the text, all digits, followed by a non-digit or by the end. |
| ServingsInput.ParseInt | src/cat.jsx:223 | `parseInt` gives a number exactly when the value starts with a digit, or a sign and a digit (NaN otherwise), and a negative number only after a minus sign. |
| ServingsInput.ParseServings | src/cat.jsx:223 | `parseInt(value) \|\| 0` is 0 exactly when `parseInt` gives NaN or 0; any other count is the parsed number. |
| ServingsInput.ParseServingsDecimal | src/cat.jsx:223 | An input value that is a numeral gives its number, whatever follows it after a non-digit ("12", "12.7" and "12e3" all give 12). |
| ServingsInput.ParseServingsNegativeDecimal | src/cat.jsx:223 | An input value "-n" gives -n, which removes the dish. |
| ServingsInput.ParseServingsNoDigits | src/cat.jsx:223 | A value with no digit after the optional sign reads as 0 servings (NaN \|\| 0), which removes the dish. |
| ServingsInput.ParseServingsPositive | src/cat.jsx:223 | A positive count comes only from a value that starts with a digit, or with "+" and a digit. |
| Requirements.DishSum | src/cat.jsx:108-114 | With non-negative recipes, the sum of the selected dishes' contributions to a material is non-negative. |
| Requirements.DishSumRemove | src/cat.jsx:108-114 | Any dish can be taken out of the per-material sum first, so the accumulated requirement does not depend on the order in which dishes are visited. |
| Requirements.RequirementEquation | src/cat.jsx:108-114 | A material has a requirement exactly when some selected dish with a positive count lists it. Its requirement is the sum over the selected dishes of per-serving quantity × servings. |
| Requirements.RequirementOfOneDish | src/cat.jsx:108-114 | Selecting one dish for n servings requires exactly its recipe's materials, each at n × the per-serving quantity. |
| Requirements.RequirementNonNegative | src/cat.jsx:108-114 | With non-negative recipes every requirement is non-negative. |
| Requirements.DishSumSplit | src/cat.jsx:108-114 | The per-material sum over the selection is one selected dish's contribution plus the sum over the selection without it. |
| Requirements.RequirementAfterRemove | src/cat.jsx:108-114 | After removing a dish, a material stays required exactly when another selected dish lists it. Its requirement drops by the removed dish's contribution, and materials only that dish needed disappear. |
| Requirements.RequirementAfterAdd | src/cat.jsx:108-114 | Adding a dish with 1 serving adds its recipe's materials to the table. Each requirement grows by that dish's per-serving quantity. |
| Requirements.AccumulateDish | src/cat.jsx:110-112 | The inner loop adds servings × per-serving quantity to each of the recipe's materials, starting absent entries from 0. It leaves all other entries as they were. |
| Requirements.ComputeRequirements | src/cat.jsx:104-114 | The nested loops build exactly the requirement table of the selection. |
| Shortages.ComputeShortage | src/cat.jsx:116-122 | The shortage loop keeps exactly the required materials whose requirement exceeds the available stock (0 when the stock table has no entry). Each one maps to requirement minus available. |
| Shortages.ShortageUnique | src/cat.jsx:116-122 | The shortage table is fully determined by the requirement and stock tables. |
| Shortages.ShortagePartition | src/cat.jsx:117-121 | Every shortage is a required material with a positive missing quantity. Every required material is either short or covered by stock, never both. |
| Shortages.ShortageItemCount | src/cat.jsx:129 | `totalShortageItems` is 0 exactly when the shortage table is empty. |
| Shortages.AvailableInStock | src/cat.jsx:335 | When every short material is a required one, "Available in Stock" is the number of required materials that are not short, so it is never negative. |
| Shortages.SummaryCounts | src/cat.jsx:329-341 | "Need to Purchase" (line 129) counts the short materials. "Available in Stock" (line 335) equals the number of covered materials, so it is never negative. The two add up to "Materials Needed". |
| Planning.PlanningSession.constructor | src/cat.jsx:74-76 | A session starts with nothing selected, empty tables, and the given recipe and stock tables. |
| Planning.PlanningSession.Recompute | src/cat.jsx:103-126 | The effect replaces both published tables at once: the requirement table of the current selection and its shortage table against stock. The selection is left unchanged. |
| Planning.PlanningSession.AddDishFromDropdown | src/cat.jsx:80-88 | The selection becomes AddDish of the old one, and the session invariant holds afterwards. |
| Planning.PlanningSession.UpdateDishQuantity | src/cat.jsx:91-100 | The selection becomes UpdateQuantity of the old one, and the session invariant holds afterwards. |
| Planning.PlanningSession.Remove | src/cat.jsx:202-207 | The Remove button deletes the dish from the selection, and the session invariant holds afterwards. |
| Planning.PlanningSession.Decrement | src/cat.jsx:212-217 | The minus button lowers the count by 1, and from 1 it removes the dish. |
| Planning.PlanningSession.Increment | src/cat.jsx:229-234 | The plus button raises the count by 1. |
| Planning.PlanningSession.EnterServings | src/cat.jsx:218-228 | The servings box sets the count that parseInt(text) \|\| 0 reads from the text, so unreadable text removes the dish. |
| Planning.ShortageTraceable | src/cat.jsx:117-121 | Every material on the shopping list is listed by some selected dish. Its missing quantity is the selection's total need minus the stock. |
| SampleData.BiriyaniRequirement | src/cat.jsx:7-14 | Biriyani for 200 servings needs 40 kg basmati rice, 30 chicken, 10 onions, 2 spices mix, 4 ghee and 6 yogurt. |
| SampleData.BiriyaniShortage | src/cat.jsx:51-72 | Against the sample stock of those six materials, only chicken is short, by 5 kg, and 5 materials are available. |
| SampleData.BiriyaniForTwoHundred | src/cat.jsx:6-72 | With the sample tables, Biriyani × 200 gives the shopping list {Chicken: 5 kg} and "Available in Stock" 5. |
| SampleSession.BiriyaniMinusOne | src/cat.jsx:213 | Adding Biriyani, entering "200" and pressing minus leaves 199 servings. |

## Left out

- Rendering: the JSX markup, icons, Tailwind classes, the integration note, and `toFixed(2)` formatting.
- React scheduling: the model has no `useState`/`useEffect` timing. Each handler recomputes explicitly and publishes both tables together. On the real page the tables stay stale until the effect runs after the render.
- Floating point: quantities are exact reals. In the page the order of the additions can change the last bits of a sum. In the model it cannot.
- Serving counts are unbounded integers. In the page they are doubles, so `quantity + 1` (line 230) and the `totalDishes` sum (line 128) are exact only below 2^53.
- Key order: JavaScript objects keep insertion order, and Dafny maps have none. Every result proved here is independent of the order.
- `setSelectedDishForAdd('')` after an add, and the dropdown's own state: these are UI state. The dropdown's choice is only the argument of the add.
- `removeDish`: it is called but declared nowhere in `src/cat.jsx`, so as written the calls at lines 93 and 203 would throw a ReferenceError and leave the selection unchanged. The model takes it as plain key deletion that does nothing when the key is absent. The Remove button, the minus button at 1 serving, and entering 0 or a non-number all rest on that reading.
- A selected dish missing from the recipe table would make `dishes[dish]` undefined and the effect would throw. The model rules this out by requiring every selected dish to be a recipe dish, an invariant the session keeps.
- PlanningSession.EnterServings: the browser's cleaning of the number box is not modelled. An `<input type="number">` reports "" for any text that is not a valid floating-point number, so "12abc" or "12e" give NaN and 0 servings. `text` is the value after that cleaning.
- ServingsInput.ParseInt: leading whitespace, the `0x` hexadecimal prefix, and digit strings too long for a double are not modelled. A number input's value never contains the first two.
- Names such as `__proto__` and other inherited properties of JavaScript objects are not modelled.
- `NaN` stock or recipe values are not modelled.
- Deducting the plan from stock, and exporting the shopping list: the page has neither.
