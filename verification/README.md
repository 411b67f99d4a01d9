# Menu calculator — a Dafny model

The program turns a menu plan into a shopping list. Its input is:

- a data file of ingredient definitions, each with a unit label;
- recipes, each giving a quantity per participant for every ingredient;
- a plan that maps meal names to how often each is served;
- the number of participants.

For each meal served a non-zero number of times, the `calculate` loop does two things:

1. It writes a page with that meal's own list: converted quantity × participants.
2. It adds converted quantity × participants × count to a running total per ingredient.

A last page shows the running totals after a display adjustment. Every page body is a text table of `|name|value|` lines.

The class exists twice, in `app/actions.ts` and `components/calculator.ts`. The unit table and the methods `addIngredients`, `adjustUnits` and `renderTable` read the same in both copies, and rows about them cite either copy. The two copies differ in how they create the document. Only `app/actions.ts` awaits `PDFDocument.create()`, so only there do `calculate` and the page methods run as written. Every successful result of `Calculation` and every `Report` member therefore describes `app/actions.ts`, and their rows cite that copy. The corresponding lines are:

| part | app/actions.ts | components/calculator.ts |
|---|---|---|
| `units` table | 12-18 | 7-13 |
| `addIngredients` | 51-62 | 44-55 |
| general list page | 64-69 | 57-62 |
| per-meal list page | 71-82 | 64-75 |
| `adjustUnits` | 84-92 | 77-85 |
| `renderTable` | 94-102 | 87-95 |
| `calculate` | 104-117 | 97-105 |

## Modules

- `Wrappers`: `Option` and `Result`.
- `Records`: a JavaScript object used as a dictionary. It holds the keys in insertion order plus the stored values. `Object.keys`, `Object.values` and assignment are modelled with that order.
- `Units`: the unit table, the conversion and the display adjustment (`adjustUnits`).
- `Menu`: the data file, ingredient resolution, `addIngredients` and the per-meal list.
- `Calculation`: the `calculate` loop over the plan.
- `Layout`: `renderTable`, with `padEnd` and `padStart`.
- `Report`: the pages of the generated document.

## Modelling choices

- A `TypeError` ends the whole run. The source raises one in three cases: a missing recipe, a missing ingredient definition, or a unit label outside the table (where it calls `undefined`). Here each case is a `Failure` carrying the offending name.
- Quantities are `real`. The participant count and the meal counts are `int`.
- The products quantity × participants × count are computed by repeated addition (`Menu.Scale`). `Menu.ScaleIsProduct` proves this equals the real product, and it keeps the proofs in linear arithmetic.
- `Number.prototype.toString` is a parameter `fmt: real -> string`. The layout facts hold whatever text `fmt` produces.
- The display adjustment reproduces the code. A total of at least `units.g(1000)` goes through `units.kg`, which multiplies it by 1000. A total below `units.l(1)` goes through `units.ml`, which multiplies it by 0.001. This happens for every ingredient, whatever its unit.
  - So 10000 g of flour is shown as 10000000, not as 10 kg.
  - Converting to kilograms would mean dividing by 1000, which is what the unit names suggest. The model follows the code instead.
  - `Report.FlourScenario` shows the effect on a concrete plan.
- The truthiness test in `addIngredients` (`if (list[k]) … += … else … = …`) is kept as a branch in `Menu.Bump`. Both branches give the old total (0 when absent) plus the contribution.

## Model

| member | source | states |
|---|---|---|
| Units.ParseUnit | app/actions.ts:12-18 | a unit label is found exactly when it is one of g, kg, l, ml, st, and the entry found carries that label |
| Units.ParseLabel | components/calculator.ts:7-13 | each of the five table entries is found again under its own label |
| Units.Convert | app/actions.ts:12-18 | g, l and st return the value unchanged, kg returns 1000 × value, ml returns value / 1000; any other label gives nothing |
| Units.Adjust | app/actions.ts:86-90 | a total of at least 1000 becomes 1000 × total, a total below 1 becomes total / 1000, a total in [1, 1000) is unchanged |
| Units.AdjustFixedPoints | components/calculator.ts:79-83 | the adjustment leaves a total unchanged exactly when it lies in [1, 1000) or is 0 |
| Units.AdjustNeverNormalizes | app/actions.ts:86-90 | a total outside [1, 1000) is never brought into it: large totals grow at least 1000-fold and small non-negative ones shrink |
| Units.AdjustNotIdempotent | components/calculator.ts:79-80 | adjusting an adjusted total can change it again (1000 becomes 1000000, then 1000000000) |
| Units.AdjustAll | app/actions.ts:84-92 | the adjusted list has the same keys in the same order |
| Units.AdjustUnits | components/calculator.ts:77-85 | the in-place pass over the entries keeps keys and order and replaces each value by its adjustment, agreeing with `AdjustAll` |
| Records.Put | app/actions.ts:78 | assigning under a key stores the value there; an existing key keeps its position, a new key goes last |
| Records.Values | app/actions.ts:67 | `Object.values` lists the stored values in key order, one per key |
| Menu.Amount | app/actions.ts:54-55 | converting an ingredient's quantity succeeds exactly when it is defined and its unit is in the table; a missing definition fails with UnknownIngredient, an unknown label fails with UnknownUnit naming that label |
| Menu.ScaleIsProduct | app/actions.ts:57-59 | the repeated addition used for quantity × participants × count equals the real product |
| Menu.Bump | components/calculator.ts:49-53 | after one recipe line the ingredient's total is its old total (0 when absent) plus the contribution, it is listed, it was appended if new, and no other total changes |
| Menu.AddLines | app/actions.ts:53-61 | the pass over recipe lines succeeds exactly when every line's ingredient resolves; on failure the error is the conversion failure (UnknownIngredient or UnknownUnit with its label) of the first line, in recipe order, whose ingredient does not resolve |
| Menu.AddLinesTotals | components/calculator.ts:46-54 | after the pass every ingredient of the lines has gained its share, and every other total is unchanged |
| Menu.AddLinesKeys | app/actions.ts:53-61 | after the pass the list holds the keys it held plus the lines' ingredients, and the old keys keep their order at the front |
| Menu.AddIngredients | app/actions.ts:51-62 | `addIngredients` succeeds exactly when the meal has a recipe whose ingredients all resolve; it fails with UnknownMeal when there is no recipe, and otherwise with the conversion failure of the first recipe line that does not resolve; each total becomes old total + converted quantity × participants × count; no other total changes; the recipe's ingredients not yet listed are appended, in recipe order, after the keys already there |
| Menu.AddLinesOrder | app/actions.ts:53-61 | the pass over recipe lines appends the lines' ingredients not yet listed, in line order, after the keys already there |
| Menu.MealLines | app/actions.ts:76-79 | the per-meal pass succeeds exactly when every line's ingredient resolves; on failure the error is the conversion failure of the first line, in recipe order, whose ingredient does not resolve |
| Menu.MealLinesValues | app/actions.ts:76-79 | the per-meal pass stores each line's converted quantity × participants under its ingredient and keeps every other entry |
| Menu.MealLinesOrder | app/actions.ts:74-80 | fresh ingredients are appended in recipe order |
| Menu.MealList | app/actions.ts:71-82 | the per-meal list exists exactly when the meal is cookable, fails with UnknownMeal without a recipe and otherwise with the conversion failure of the first recipe line that does not resolve, lists the recipe's ingredients in recipe order, and holds converted quantity × participants, independent of the count |
| Menu.LinesFailAlike | app/actions.ts:51-79 | when the per-meal pass fails, the aggregating pass over the same lines fails with the same error |
| Menu.MealListFailsLikeAddIngredients | app/actions.ts:51-82 | a meal whose own list cannot be built makes `addIngredients` fail with the same error |
| Menu.AddIngredientsScalesMealList | app/actions.ts:51-82 | what `addIngredients` adds for a meal is the meal's own list multiplied by the count |
| Calculation.Included | app/actions.ts:110-116 | a meal gets processed exactly when the plan lists it with a count other than 0 |
| Calculation.Steps | app/actions.ts:110-116 | the loop succeeds exactly when every served meal of the plan is cookable |
| Calculation.StepsTotals | app/actions.ts:110-116 | after the loop each total is the earlier total plus the shares of the served meals; the keys are those listed before plus those some served meal uses; earlier keys keep their order |
| Calculation.StepsOrder | app/actions.ts:110-116 | after the loop the ingredients are listed in the order of their first use by a served meal, after the ones listed before |
| Calculation.StepsFirstError | app/actions.ts:110-116 | a failing loop stops with the error of the first served meal that is not cookable, as its own list reports it, since `addMealIngredientList` runs before `addIngredients` |
| Calculation.StepsSections | app/actions.ts:110-116 | the loop appends one section per served meal, in plan order, each holding that meal's own list, and keeps earlier sections |
| Calculation.Calculate | app/actions.ts:104-117 | `calculate` succeeds exactly when every served meal is cookable; then each total is the sum over served meals of converted quantity × participants × count, exactly the ingredients of served meals are listed, in the order of their first use, and there is one section per served meal in plan order; otherwise the error is the one the first uncookable served meal's own list runs into |
| Calculation.ExpectedConcat | app/actions.ts:104-117 | the sum over a plan split in two parts is the sum of the parts |
| Calculation.ExpectedPermutation | app/actions.ts:110-116 | the sum of shares does not depend on the order in which the meals are visited |
| Calculation.CalculateOrderIndependent | app/actions.ts:104-117 | two plans with the same counts in different key order both succeed or both fail, and give the same totals for the same set of ingredients |
| Calculation.StepsSkipZero | app/actions.ts:112-115 | a meal with count 0 changes neither the sections nor the totals of the rest of the loop |
| Calculation.CalculateSkipsZero | app/actions.ts:112-115 | deleting a count-0 meal from the plan gives exactly the same result |
| Layout.PadEnd | app/actions.ts:99 | `padEnd(20)` keeps the whole string, then adds spaces up to 20 characters, never cutting |
| Layout.PadStart | components/calculator.ts:92 | `padStart(20)` adds spaces before the whole string up to 20 characters, never cutting |
| Layout.Row | app/actions.ts:99 | a line is 4 characters longer than its two padded fields |
| Layout.RowPipes | components/calculator.ts:92 | a line starts with a pipe, has a pipe after the name field, and ends with a pipe and a newline |
| Layout.RowName | app/actions.ts:99 | the complete name follows the first pipe, followed by spaces to the end of its field |
| Layout.RowValue | components/calculator.ts:92 | the complete value ends right before the last pipe, preceded by spaces from the start of its field |
| Layout.RowLength | app/actions.ts:99 | a line whose name and value fit in 20 characters is 44 characters long |
| Layout.RenderTable | components/calculator.ts:87-95 | the loop appends the entries' lines in input order, gives "" for no entries, and gives at least 44 characters per entry |
| Layout.TableLength | app/actions.ts:94-102 | when everything fits, the table is 44 characters per entry |
| Layout.TableLines | components/calculator.ts:87-95 | when everything fits, line i of the table is exactly the line of entry i |
| Layout.RowNewline | app/actions.ts:99 | a line holds exactly one newline when name and value hold none |
| Layout.TableNewlines | app/actions.ts:94-102 | the table holds exactly one newline per entry when names and values hold none |
| Report.Document | app/actions.ts:104-117 | the document exists exactly when every served meal is cookable; it has one page per served meal plus a last page without heading; otherwise the error is the one of the first uncookable served meal |
| Report.DocumentHeadings | app/actions.ts:73 | meal page i is headed by the i-th served meal of the plan |
| Report.RecordLines | app/actions.ts:67 | when every key and its formatted value fit 20 characters, rendering `Object.keys` and `Object.values` of a list gives one line per key, in key order, showing that key's value |
| Report.SectionPageLines | app/actions.ts:71-81 | the page `addMealIngredientList` draws (`MealPage`: the meal as heading, its list rendered as the table); when the meal's ingredient names and formatted quantities fit 20 characters, a meal page has one line per recipe ingredient, in recipe order, showing converted quantity × participants |
| Report.MealPageLines | app/actions.ts:71-82 | when that meal's names and formatted quantities fit 20 characters, page i of the document lists the recipe of the i-th served meal, each line showing converted quantity × participants, not multiplied by the count |
| Report.GeneralPageLines | app/actions.ts:64-69 | the page `addGeneralIngredientList` draws (`GeneralPage`: no heading, the adjusted totals rendered as the table); when every key and formatted adjusted total fit 20 characters, the totals page has one line per key, in key order, showing the display-adjusted total |
| Report.ShoppingListLines | app/actions.ts:64-69 | when every used ingredient's name and formatted adjusted total fit 20 characters, the last page lists exactly the ingredients used by served meals, in the order of their first use, each showing the adjusted sum over served meals |
| Report.FlourExpected | app/actions.ts:51-62 | cake served twice with 0.5 kg flour per person for 10 participants needs 10000 g of flour |
| Report.FlourScenario | app/actions.ts:84-92 | in that plan the shopping list holds 10000 g of flour and its display-adjusted total is 10000000 |
| Report.FlourPages | app/actions.ts:64-82 | when 5000 and 10000000 fit their column, the flour plan's document has two pages: the cake page, whose flour line shows 5000, not multiplied by the count, and the shopping list, whose flour line shows 10000000 |

## Left out

- Reading `data.json` and the menu file (`fs.readFileSync`, `JSON.parse`) is input I/O. The parsed data, plan and participant count are parameters.
- Writing the PDF (`fs.writeFileSync`, `output`) is output I/O and is not modelled.
- pdf-lib is foreign code: `PDFDocument.create`, `addPage`, `drawText`, font embedding and `save`. A page is an optional heading plus its table text.
- Calculation.Steps: assumes every heading and table is drawn. pdf-lib encodes text in the standard Courier font (app/actions.ts:108) as Windows-1252 and throws on any other character. Such a throw in `drawText` at app/actions.ts:73 or :81, for a meal or ingredient name such as "Łosoś", is not modelled.
- Calculation.StepsFirstError: assumes every heading and table is drawn. An earlier cookable served meal whose name or ingredients fall outside Windows-1252 makes `drawText` throw first (app/actions.ts:73, :81), and that error is not modelled.
- Calculation.Calculate: assumes every heading and table is drawn. The Windows-1252 encoding error of `drawText` at app/actions.ts:73 and :81 is not modelled.
- Report.Document: assumes every heading and table is drawn. The Windows-1252 encoding error of `drawText` at app/actions.ts:68, :73 and :81 is not modelled.
- `async`/`await` and the `"use server"` wrapper add no behaviour. The calls are modelled in the order they run.
- components/calculator.ts:41 stores `PDFDocument.create()` without awaiting it, so `pdfDoc` is a promise there. Its `addPage` then throws at components/calculator.ts:65 for the first served meal and at :58 for the shopping list. That copy's `calculate` never completes a served meal and never produces a page. The model does not describe this: every `Success` of `Calculation` and every `Report` member states the behaviour of app/actions.ts only.
- `console.log` and the `main` functions with their fixed file names and participant count are not modelled.
- IEEE-754 rounding is not modelled: quantities are exact reals.
- Number formatting (`toString`) is the parameter `fmt`. The lemmas about table lines speak only of tables whose names and formatted values fit in 20 characters. A longer one, such as the 21 characters of `toString` of an adjusted 1/3, widens its line, and these lemmas say nothing about that table.
- Report.RecordLines: states the line layout only when every key and its formatted value fit in 20 characters.
- Report.SectionPageLines: states the line layout only when the meal's ingredient names and formatted quantities fit in 20 characters.
- Report.MealPageLines: states the line layout only when the meal's ingredient names and formatted quantities fit in 20 characters.
- Report.GeneralPageLines: states the line layout only when every key and its formatted adjusted total fit in 20 characters.
- Report.ShoppingListLines: states the line layout only when every used ingredient's name and formatted adjusted total fit in 20 characters.
- `padEnd` and `padStart` count UTF-16 code units. The model counts characters, which agree on text of single code units.
- Keys that look like integers come first in JavaScript objects, whatever the insertion order. The model uses insertion order for all keys.
- Names of inherited object properties are not modelled; every name is an ordinary key here.
  - A unit label such as `toString` is found in the unit table by JavaScript. The model treats it as unknown.
  - An ingredient named `toString`, `constructor` or `valueOf` already reads as a function from the running totals at app/actions.ts:56, before anything is stored. The truthiness test then takes the `+=` branch, which concatenates strings.
  - An ingredient named `__proto__` is not stored as a key by the assignments at app/actions.ts:59 and :78.
  - `Menu.Bump` and `Records.Put` treat each of these names as a fresh key.
- A fractional or non-finite count or participant number is not modelled, because both are integers here.
