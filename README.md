# fairpay chart logic, modelled in Dafny

fairpay shows a company's salaries as charts. This project models the code
that turns already-fetched data into those charts.

- **Pie chart** (`client/components/PieChart.js`). `getPercentages(array,
  keyword)` counts how many records carry each distinct value of a field.
  It then emits one `{category, percentage}` bucket per counted value, in
  the order `for (key in count)` visits them. The component calls it with
  its title lower-cased.
- **Bar chart** (`client/components/BarChart.jsx`). The selected focus
  (`'gender'`, `'age'`, anything else) chooses one of three lists. The width
  is divided evenly among the rows. Each bar is 93% of its slot wide and as
  tall as a linear scale from `[0, max avg_salary]` onto `[height, 0]` says.
  It carries the label `'$' + numberWithCommas(Math.round(value))`. Each
  category label is placed at the middle of its slot and shows
  `capitalize(row[selectedFocus])`.

Files and modules:

- `js_values.dfy` (`JsValues`): the JavaScript values that reach the code,
  and the pieces of the language the code relies on:
  - `ToPropertyKey`;
  - decimal printing of integers;
  - ASCII `toLowerCase`/`toUpperCase`.
- `property_order.dfy` (`PropertyOrder`): the order in which `for...in`
  visits the own properties of a plain object. Array-index keys come first,
  in ascending numeric order, then the other keys in creation order.
- `pie_chart.dfy` (`PieChart`): `getPercentages` is an imperative method.
  - Its two loops are `CountLoop` and `EmitLoop`.
  - It is proved equal to the specification function `Percentages`.
  - Its properties are proved about `Percentages`.
- `bar_chart.dfy` (`BarChart`): pure functions for these pieces:
  - the regular-expression replace;
  - `capitalize`;
  - the label;
  - the focus selection;
  - the layout.

### What the code does that a quick reading misses

- **The order of the buckets is not first-occurrence order.** `for...in`
  puts the keys that are array indices first ("25", "30" before
  "undefined"), in numeric order. Only the other keys keep the order in
  which they were first seen. `BucketOrder` states exactly this.
- **Some records are never counted.** `count` is a plain object. Assigning
  to `count["__proto__"]` is silently ignored, so records whose field is
  `"__proto__"` are never counted. Their share is missing from the buckets,
  so the percentages add up to 100 only when no such record exists
  (`PercentagesSum`, `PercentagesSumTo100`).
- **A "hasOwnProperty" record can make the call throw.** Once a record
  carries `"hasOwnProperty"`, the number stored under it shadows the
  inherited method. The next record's `count.hasOwnProperty(key)` then
  throws a TypeError. `ThrowsExactly` states when this happens.
- **Both of these break the promise of the doc comment.** The comment of
  `getPercentages` (PieChart.js:62-67) promises one `{category,
  percentage}` object per category. A "__proto__" category gets no object,
  and a "hasOwnProperty" category followed by any record gets no result at
  all. The model keeps the code as it is written.
- **Missing fields are counted.** A record without the field is counted
  under the key "undefined".
- **An empty list does not divide by zero.** The first loop never runs, so
  the result is `[]` (`NoRecordsNoBuckets`).
- **Commas are placed by the regular expression.** `numberWithCommas`
  inserts a comma at every position where `\B(?=(\d{3})+(?!\d))` matches.
  - `PatternAt` states the pattern literally (word boundary, lookahead with
    `k` groups).
  - `CommaAtIsPattern` proves that this is the same as the digit-run test
    the rewrite uses.
  - `NumberWithCommasGroups` proves the result is the digit groups of three
    joined by commas. A minus sign stays in front: `\B` fails between the
    sign and the first digit.

## Model

| member | source | states |
|---|---|---|
| PieChart.Percentages | client/components/PieChart.js:68-85 | getPercentages as a value: the keys of line 73 counted by CountKeys, then Emit over ForInOrder; its meaning is stated by OneBucketPerKey, BucketShares, PercentagesSum, BucketOrder and ThrowsExactly, and GetPercentages is proved equal to it |
| PieChart.Keyword | client/components/PieChart.js:68 | the keyword, 'gender' when the argument is omitted; TitleSelectsKeyword relates it to the component's title |
| PieChart.CountStep | client/components/PieChart.js:73-75 | one iteration: throws once an own "hasOwnProperty" exists, leaves `count` alone for "__proto__", else creates the property at 1 or increments it; CountStepKeepsCounts states the invariant it keeps |
| PieChart.Emit | client/components/PieChart.js:80-82 | the second loop as a value: bucket i is `(keys[i], count[keys[i]]/total*100)` (Categories, EmitLoop) |
| PieChart.GetPercentages | client/components/PieChart.js:68-85 | the method (two loops) returns exactly `Percentages(people, keyword)`, the thrown TypeError included |
| PieChart.CountLoop | client/components/PieChart.js:69-76 | the counting loop ends in the state `CountKeys` describes, or the TypeError of line 74 |
| PieChart.EmitLoop | client/components/PieChart.js:78-84 | the emitting loop pushes one bucket `(key, count[key]/total*100)` per key, in the given order |
| PieChart.PieData | client/components/PieChart.js:14 | the component's data is `getPercentages(list, title.toLowerCase())` |
| PieChart.TitleSelectsKeyword | client/components/PieChart.js:14 | a title lower-casing to "gender" groups exactly as the default keyword does |
| PieChart.TitleFieldMissing | client/components/PieChart.js:14 | a nonempty list in which no record has the field named by the lower-cased title gives one slice, "undefined" at 100 percent |
| PieChart.KeyOf | client/components/PieChart.js:73 | `person[keyword]` as the key `count` uses; its meaning is stated by MissingFieldKey and SameBucket |
| PieChart.MissingFieldKey | client/components/PieChart.js:73 | a record lands in the bucket "undefined" exactly when its field is missing or is the string "undefined" |
| PieChart.SameBucket | client/components/PieChart.js:73-75 | under non-string values two records share a bucket exactly when their values are equal; 30 and "30" always share one |
| PieChart.CountKeys | client/components/PieChart.js:72-76 | the loop never creates more properties than there are records |
| PieChart.CountKeysCounts | client/components/PieChart.js:72-76 | after the loop each property counts its key's occurrences exactly, the properties are the distinct keys other than "__proto__" in first-occurrence order, and together they count every record not keyed "__proto__" |
| PieChart.CountStepKeepsCounts | client/components/PieChart.js:73-75 | one iteration preserves that counting invariant |
| PieChart.CountKeysThrows | client/components/PieChart.js:74 | the loop fails exactly when some key other than the last is "hasOwnProperty" |
| PieChart.ThrowsExactly | client/components/PieChart.js:74 | `getPercentages` throws exactly when a record other than the last carries "hasOwnProperty" |
| PieChart.OneBucketPerKey | client/components/PieChart.js:72-82 | buckets have distinct categories, each a value some record carries (never "__proto__"), and every such value has a bucket |
| PieChart.BucketShares | client/components/PieChart.js:71-81 | at most one bucket per record; each bucket's percentage is (number of records with that value)/(number of records)*100, with that number between 1 and the total |
| PieChart.PercentagesSum | client/components/PieChart.js:71-82 | the percentages plus the share of "__proto__" records add up to 100 |
| PieChart.PercentagesSumTo100 | client/components/PieChart.js:71-82 | with at least one record and none keyed "__proto__", the percentages add up to exactly 100 |
| PieChart.BucketOrder | client/components/PieChart.js:80-82 | array-index categories come first in strictly ascending numeric order; the other categories follow in the order their value first occurs among the records |
| PieChart.NoRecordsNoBuckets | client/components/PieChart.js:71-84 | an empty list gives no buckets (no division by zero) |
| PieChart.Categories | client/components/PieChart.js:80-81 | bucket i is named after the i-th key visited |
| PieChart.ExampleTwoToOne | client/components/PieChart.js:68-85 | 'F','F','M' under the default keyword give F at 200/3 then M at 100/3 |
| PieChart.ExampleMissingFieldAndNumbers | client/components/PieChart.js:73-80 | ages 30, missing, 25 give "25", "30", "undefined", a third each, index keys first |
| PieChart.ExampleHasOwnPropertyThrows | client/components/PieChart.js:74 | a record keyed "hasOwnProperty" followed by any record throws |
| PropertyOrder.IsArrayIndex | client/components/PieChart.js:80 | an array index is the canonical decimal form of a number below 2^32 - 1; ForInOrderIndicesFirst puts these keys first |
| PropertyOrder.ForInOrder | client/components/PieChart.js:80 | the order `for (key in count)` visits the properties, one per created property; the four lemmas below state it |
| PropertyOrder.ForInOrderPermutes | client/components/PieChart.js:80 | `for...in` visits exactly the created properties |
| PropertyOrder.ForInOrderNoDuplicates | client/components/PieChart.js:80 | and visits each once |
| PropertyOrder.ForInOrderIndicesFirst | client/components/PieChart.js:80 | array-index keys come first, strictly ascending |
| PropertyOrder.ForInOrderKeepsNamedOrder | client/components/PieChart.js:80 | the other keys keep their creation order |
| PropertyOrder.SortBySorted | client/components/PieChart.js:80 | the ordering of index keys is sorted by numeric value |
| PropertyOrder.SortByPermutes | client/components/PieChart.js:80 | and is a permutation of them |
| JsValues.Lookup | client/components/PieChart.js:73 | `person[keyword]`: a missing field reads as undefined (MissingFieldKey) |
| JsValues.ToPropertyKey | client/components/PieChart.js:73-75 | the key under which `count[key]` stores a value; IntKeysInjective and SameBucket state which values share one |
| JsValues.IntToDecimal | client/components/BarChart.jsx:148 | `x.toString()` of an integer: a minus sign for negatives, then NatToDecimal of the magnitude (NumberWithCommasRoundTrip) |
| JsValues.NatToDecimal | client/components/BarChart.jsx:148 | `toString` of a natural number is its canonical digit string, one digit exactly below 10 |
| JsValues.DecimalRoundTrip | client/components/BarChart.jsx:148 | reading back the printed digits gives the number |
| JsValues.CanonicalRoundTrip | client/components/PieChart.js:80 | canonical digit strings and numbers correspond one to one |
| JsValues.IntKeysInjective | client/components/PieChart.js:73-74 | different integers never share a property key, nor share one with null, undefined, a boolean or an object |
| JsValues.ToLowerCase | client/components/PieChart.js:14 | lower-casing maps each character and leaves no capital |
| JsValues.LowerCaseFixesLowerStrings | client/components/PieChart.js:14 | a string without capitals is its own lower case |
| JsValues.ToUpperCase | client/components/BarChart.jsx:153 | upper-casing maps each character and leaves no lower-case letter |
| JsValues.UpperCaseIdempotent | client/components/BarChart.jsx:153 | upper-casing twice is upper-casing once |
| BarChart.PatternAt | client/components/BarChart.jsx:148 | `\B(?=(\d{3})+(?!\d))` matching at a position, written out literally; CommaAtIsPattern relates it to CommaAt |
| BarChart.CommaAt | client/components/BarChart.jsx:148 | the digit-run test for a comma before a position; CommaAtIsPattern and DigitCommaAt state where it holds |
| BarChart.CommasBefore | client/components/BarChart.jsx:148 | the global replace over the first q characters, each position tested on the original string; DigitsGrouped and SignedCommasBefore state what it builds |
| BarChart.InsertCommas | client/components/BarChart.jsx:148 | the replace over the whole string; DigitsGrouped states its result |
| BarChart.NumberWithCommas | client/components/BarChart.jsx:147-149 | numberWithCommas on an integer; NumberWithCommasGroups, NumberWithCommasRoundTrip and SmallNumbersUnchanged state its result |
| BarChart.LookaheadByRun | client/components/BarChart.jsx:148 | `(?=(\d{3})+(?!\d))` succeeds exactly where a positive multiple of three digits runs to a non-digit or the end |
| BarChart.CommaAtIsPattern | client/components/BarChart.jsx:148 | the rewrite inserts a comma exactly where `\B(?=(\d{3})+(?!\d))` matches |
| BarChart.DigitCommaAt | client/components/BarChart.jsx:148 | in a digit string a comma goes before position p exactly when 0 < p and a positive multiple of three digits remains |
| BarChart.SignedCommaAt | client/components/BarChart.jsx:148 | a leading minus shifts the comma positions by one and adds none |
| BarChart.Groups | client/components/BarChart.jsx:148 | digits cut into groups from the right: first group 1-3 long, every other exactly 3, concatenating back to the digits |
| BarChart.DigitsGrouped | client/components/BarChart.jsx:147-149 | on digits, numberWithCommas is the groups of three joined by single commas |
| BarChart.NumberWithCommasGroups | client/components/BarChart.jsx:147-149 | numberWithCommas(n) is the sign, if any, then the magnitude's digit groups joined by commas |
| BarChart.NumberWithCommasRoundTrip | client/components/BarChart.jsx:147-149 | removing the commas gives `n.toString()`; for n >= 0 those digits read back as n |
| BarChart.SmallNumbersUnchanged | client/components/BarChart.jsx:148 | numbers strictly between -1000 and 1000 come back unchanged; all others get a comma |
| BarChart.ExampleMillion | client/components/BarChart.jsx:147-149 | numberWithCommas(1234567) is "1,234,567" |
| BarChart.Label | client/components/BarChart.jsx:54 | the bar's value text; LabelDigits and the three label examples state it |
| BarChart.Round | client/components/BarChart.jsx:54 | Math.round picks the integer within half of v, halves going up |
| BarChart.LabelDigits | client/components/BarChart.jsx:54 | the label is "$" followed by the rounded value with commas; removing them gives "$" + Math.round(v).toString() |
| BarChart.ExampleLabel | client/components/BarChart.jsx:54 | 1234567 is labelled "$1,234,567" |
| BarChart.ExampleLabelRoundsUp | client/components/BarChart.jsx:54 | 999.5 is labelled "$1,000" |
| BarChart.ExampleLabelDropsCents | client/components/BarChart.jsx:54 | 42.49 is labelled "$42" |
| BarChart.CharAt | client/components/BarChart.jsx:153 | `s.charAt(i)`, "" past the end; Capitalize's contract states what it contributes |
| BarChart.Slice | client/components/BarChart.jsx:153 | `s.slice(i)`, "" past the end; Capitalize's contract states what it contributes |
| BarChart.Capitalize | client/components/BarChart.jsx:151-154 | "" for a non-string; for a string the same length, the first character upper-cased and the rest unchanged |
| BarChart.CapitalizeIdempotent | client/components/BarChart.jsx:151-154 | capitalizing twice is capitalizing once; a string not starting with a lower-case letter is returned as is |
| BarChart.SelectList | client/components/BarChart.jsx:81-84 | the list for the focus under `===`; FocusSelection states each case |
| BarChart.FocusSelection | client/components/BarChart.jsx:81-84 | 'gender' selects genderList, 'age' ageList, every other value (also 'Gender') raceList |
| BarChart.MaxSalary | client/components/BarChart.jsx:92 | the maximum is at least every row's avg_salary and is some row's avg_salary |
| BarChart.Linear | client/components/BarChart.jsx:91-93 | d3's linear scale applied to a value; LinearEnds and HeightProportional state it |
| BarChart.LinearEnds | client/components/BarChart.jsx:91-93 | the scale sends the domain's ends to the range's ends (0 to the chart height, the maximum to 0), and over a single-point domain every value to the same point |
| BarChart.BarHeight | client/components/BarChart.jsx:102 | `barChartHeight - barScale(v)`; HeightProportional, HeightScale and FlatChart state it |
| BarChart.HeightProportional | client/components/BarChart.jsx:91-102 | bar height is H*v/max |
| BarChart.HeightScale | client/components/BarChart.jsx:78-102 | with max > 0: value 0 gives height 0, the maximum gives the full height, and height is monotone in the value |
| BarChart.TallestBar | client/components/BarChart.jsx:91-106 | with non-negative salaries every bar fits the chart's height and the highest salary reaches it |
| BarChart.FlatChart | client/components/BarChart.jsx:91-102 | when the maximum salary is 0 every bar has the same height, the fraction `flat` of the chart's height |
| BarChart.BarAt | client/components/BarChart.jsx:96-106 | the props of bar i; BarSlot, BarsApart, BarTexts and TallestBar state them |
| BarChart.ValueTextX | client/components/BarChart.jsx:47 | the x of a bar's value text, the middle of the rectangle (BarSlot) |
| BarChart.ValueText | client/components/BarChart.jsx:54 | a bar's value text is Label of its value (BarTexts) |
| BarChart.LabelAt | client/components/BarChart.jsx:109-121 | the category label under bar i; BarSlot and BarTexts state its position and text |
| BarChart.Chart | client/components/BarChart.jsx:78-126 | the bars and labels rendered for the focus's list; ChartSizes, BarSlot, BarsApart, BarTexts and TallestBar state them |
| BarChart.ChartSizes | client/components/BarChart.jsx:85-121 | N rows give exactly N bars and N category labels; an empty list draws nothing |
| BarChart.BarSlot | client/components/BarChart.jsx:85-114 | bar i at x = i*W/N, y = 0, width 0.93*W/N, value text at (i+0.465)*W/N, category label at ((i+0.5)*W/N, 10), inside the bar |
| BarChart.BarsApart | client/components/BarChart.jsx:85-101 | with W > 0 consecutive bars leave a gap and every bar lies within [0, W] |
| BarChart.BarTexts | client/components/BarChart.jsx:54-119 | bar i shows Label(avg_salary); its category label is capitalize(row[selectedFocus]) |

## Left out

- server/server.js is not part of this model. It holds Express
  middleware, sessions, Passport, static files and HTTP responses.
- These pieces are rendering code, driven by D3's timers and the DOM:
  - `animateRect`, the `useEffect` bodies and the transitions
    (BarChart.jsx:9-23, 32-34; PieChart.js:19-53);
  - `d3.pie`, `d3.arc` and the colour scales;
  - the JSX attributes for fill, font, transform and the dashed baseline;
  - the click handler `setSelectedFocus(index)`.
- Floating point: all arithmetic uses exact reals and integers. The model
  states percentages and bar geometry exactly, without IEEE rounding.
- `Math.round` is modelled on reals as floor(v + 0.5). NaN, infinities and
  non-number `avg_salary` values are not modelled. Every row has a real
  average salary, so d3's `max` skipping undefined or NaN values is not
  modelled either.
- BarChart.Linear: when every salary of the list is 0, the scale's domain
  is the single point [0, 0]. d3 then gives every value the same position
  in the range, and that position is decided inside the library. Linear,
  BarHeight, BarAt and Chart take it as the parameter `flat`; FlatChart
  states the consequence (all bars equally tall). The positions, widths
  and texts do not depend on it.
- BarChart.Label: defined only when the rounded value is below 10^21 in
  magnitude. From 10^21 on, `toString` switches to exponent notation,
  which is not modelled. BarTexts carries the same requirement.
- JsValues.JsValue: numbers appear only as integers below 10^21 in
  magnitude. Property keys of fractional numbers or of exponent forms are
  not modelled.
- JsValues.ToUpperCase: case mapping covers ASCII letters only. Characters
  whose upper case is longer (such as 'ß') are not modelled, and neither
  is `charAt` splitting a UTF-16 surrogate pair.
- JsValues.ToLowerCase: covers ASCII capitals only. Non-ASCII capitals such
  as 'É', which `toLowerCase` maps to 'é', are left unchanged, so a title
  with such a letter may name a different field in the model than in the
  browser.
- JsValues.Record: records are plain objects; only their own fields are
  modelled. Two kinds of lookup are not modelled:
  - a field name that reaches an inherited member (`person["toString"]`);
  - a record that is not an object.

  Also, `getPercentages` is given a list, never a non-array.
