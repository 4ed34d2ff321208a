# Monthly financial analysis handler, modelled in Dafny

`api/analise.js` is a serverless HTTP handler. It receives one month of a
person's financial movements (`movimentos`) and savings goals (`metas`) and
computes four totals from the movements:

- income (`entrada`);
- fixed expenses (`fixo`);
- variable expenses (`variavel`);
- card expenses (`cartao`).

From those it derives the month's balance (`saldoMes`) and the possible
savings (`poupancaPossivel`, the balance or zero, whichever is larger). It
renders every movement as one display line. It sends a report request
carrying these values to a chat-completion provider and returns the
provider's text, or an error, as JSON.

The model has six modules:

- `Wrappers`: the `Option` type.
- `Decimal`: money as integer cents. It gives `toFixed(2)` (`FixedTwo`), the
  shortest `String(number)` form (`NumberText`) and `Number(text)`
  (`ParseCents`, where `None` is NaN). Both printers are proved to read back
  exactly.
- `JsValues`: the JavaScript values the handler touches, with truthiness,
  property access (`Get`, where `None` is the TypeError of reading a
  property of `null`/`undefined`), `String(v)` and `Number(v)`.
- `Aggregation`: the totals loop. `Aggregate` is the imperative `forEach`
  with its four accumulators, proved against the specification function
  `SumOfType`. `TotalsOf` is that specification with the derived balance.
  The lemmas cover order independence, the movements each sum counts, and
  the movements it ignores.
- `MovementLines`: the display line of one movement (five cells joined by
  " | ") and the list of lines joined by "\n".
- `Handler`: the request ladder as a function from the request, the
  provider key and the provider (a function from the report request to the
  outcome of the call) to the status and JSON body.

Three behaviours of the code worth knowing when reading the model:

- `categoria` is printed as it is, so a missing one prints "undefined"
  (`CategoriaNotDefaulted`). Only `data` and `descricao` fall back to a dash.
- The goals are printed as they are, with no default: a missing
  `metaPoupanca` prints "undefined" (`BuildPrompt`).
- The reply text is read only from `choices[0].message.content`
  (`ContentOfAnyReply`). Any other reply shape gives the fallback text, except
  a reply whose JSON is `null`: reading its `choices`
  throws, and the handler answers with the generic 500 (`Respond`).

## Model

| member | source | states |
|---|---|---|
| `Aggregation.Aggregate` | api/analise.js:38-52 | The loop yields no totals (the TypeError) exactly when a movement is null or undefined. Otherwise it yields `TotalsOf(movs)`: each accumulator equals the bucket's sum over the movements read so far. |
| `Aggregation.Summarize` | api/analise.js:51-52 | The balance is income minus fixed, variable and card. Possible savings are never negative, never below the balance, and are either 0 or the balance. |
| `Aggregation.TotalsOf` | api/analise.js:38-52 | The totals of readable movements: the balance is income minus fixed, variable and card, and possible savings are never negative, never below the balance, and are either 0 or the balance. |
| `Aggregation.BucketOf` | api/analise.js:45-48 | A movement goes to income, fixed, variable or card exactly when its `tipo` is strictly equal to the text "entrada", "fixo", "variavel" or "cartao". A non-string `tipo` goes nowhere. |
| `Aggregation.SumOfTypeIsSumOfMatching` | api/analise.js:43-49 | Each total is the plain sum of the coerced `valor` of the movements `Matching` selects for that bucket. |
| `Aggregation.MatchingExact` | api/analise.js:43-49 | The movements a bucket sums are exactly those whose `tipo` is its tag: each such movement appears as often as in the input, and no other movement appears. |
| `Aggregation.UntaggedSumZero` | api/analise.js:43-49 | A bucket none of whose movements carries its tag sums to 0, whatever their amounts. |
| `Aggregation.SumOfTypeNonNegative` | api/analise.js:43-49 | A bucket whose movements each add a non-negative amount has a non-negative sum. |
| `Aggregation.UntaggedTotalsZero` | api/analise.js:38-52 | Movements none of which carries one of the four tags give six zero totals. |
| `Aggregation.SumOfTypeAppend` | api/analise.js:43-49 | The sum over two concatenated lists is the sum of the two sums. |
| `Aggregation.SumOfTypePermutation` | api/analise.js:43-49 | Reordering the movements does not change any bucket's sum. |
| `Aggregation.TotalsPermutation` | api/analise.js:38-52 | Reordering the movements does not change any of the six totals. |
| `Aggregation.OtherTypeIgnored` | api/analise.js:45-48 | Wherever it stands, a movement whose `tipo` is not a bucket's tag leaves that bucket's sum unchanged. This includes unknown `tipo` values and non-string ones. |
| `Aggregation.NonNumericIgnored` | api/analise.js:44 | A movement whose `valor` is missing or not a number (`Number(...)` is NaN) leaves all six totals unchanged. |
| `Aggregation.CoercedAmount` | api/analise.js:44 | `Number(valor) \|\| 0` by the kind of `valor`: undefined, null and false give 0, true gives 1.00, a number gives itself, a text gives its `Number` reading or 0 when that is NaN, an array gives the `Number` reading of its comma-joined text or 0, and an object gives 0. |
| `Aggregation.EmptyTotals` | api/analise.js:38-52 | No movements give six zero totals. |
| `Aggregation.WorkedExample` | api/analise.js:38-52 | 5000.00 income with 1200.00 fixed, 800.00 variable and 300.00 card expenses gives a balance and possible savings of 2700.00. |
| `MovementLines.AmountText` | api/analise.js:56-58 | The printed amount, `toFixed(2)` of the number of `valor` or of 0, is "NaN" exactly for a truthy non-numeric `valor`. Otherwise it has exactly two decimals. A falsy `valor` gives "0.00". |
| `MovementLines.AmountAgreesWithTotals` | api/analise.js:44-58 | A printed amount other than NaN reads back as the amount the totals count. The printed amount is the total's amount formatted, except exactly for a truthy non-numeric `valor`. |
| `MovementLines.RenderListLines` | api/analise.js:54-60 | When no printed field holds a newline, splitting the list at newlines gives one line per movement, in input order, each the line of its own movement. |
| `MovementLines.SplitJoin` | api/analise.js:60 | Splitting a `join("\n")` of newline-free lines gives those lines back. |
| `MovementLines.LineCells` | api/analise.js:56-58 | A line has five cells: `data` as `String` prints it, or "-" when falsy; `tipo` and `categoria` as `String` prints them; "R$ " followed by the printed amount of `valor` ("NaN" or a two-decimal amount, see `AmountAgreesWithTotals`); `descricao`, or "-" when falsy. No cell holds a newline when no printed field does. |
| `MovementLines.RenderLine` | api/analise.js:55-58 | A movement's line is its five cells with " \| " between each neighbouring pair. It holds no newline when its printed texts hold none. |
| `MovementLines.AmountHasNoNewline` | api/analise.js:56-58 | The printed amount never holds a newline. |
| `MovementLines.RenderList` | api/analise.js:54-60 | No movements give the empty text. Otherwise, when no printed field holds a newline, splitting the text at newlines gives the line of each movement, in input order. |
| `MovementLines.EmptyList` | api/analise.js:54-60 | No movements give an empty list. |
| `MovementLines.DashForMissing` | api/analise.js:56-58 | A falsy `data` makes the line start with "-" followed by the other four cells. A falsy `descricao` makes it end with the first four cells followed by "-". |
| `MovementLines.CategoriaNotDefaulted` | api/analise.js:56 | A missing `categoria` prints "undefined", not a dash. The line is identical to that of a movement whose `categoria` is the text "undefined". |
| `MovementLines.JoinWithLast` | api/analise.js:60 | The last element of a join is preceded by the separator, after the join of the others. |
| `Decimal.FixedTwo` | api/analise.js:78-83 | `toFixed(2)` of any amount is an optional minus sign, at least one integer digit, a point and exactly two digits. It starts with a minus sign exactly for negative amounts. The integer part has no leading zero: it starts with "0" only for amounts below 1.00. |
| `Decimal.ParseCents` | api/analise.js:44 | `Number(text)`: blank text reads as 0. A negative reading comes only from text starting with a minus sign. Any reading of non-blank text comes from text ending in a digit or a point. |
| `Decimal.FixedTwoRoundTrip` | api/analise.js:78-83 | Reading a `toFixed(2)` text back with `Number` gives exactly the amount printed. |
| `Decimal.FixedTwoZero` | api/analise.js:56-58 | Zero prints as "0.00". |
| `Decimal.NumberTextRoundTrip` | api/analise.js:44 | Reading `String(number)` back with `Number` gives the number. |
| `Decimal.NatTextValue` | api/analise.js:44 | The decimal digits of a natural number read back as that number. |
| `Decimal.ParseUnsignedWhole` | api/analise.js:44 | An integer literal reads as that many whole units. |
| `Decimal.ParseUnsignedFraction` | api/analise.js:44 | Digits, a point and one or two digits read as the whole units plus the hundredths those digits write. |
| `Decimal.ParseSigned` | api/analise.js:44 | A leading minus sign negates what the unsigned literal reads as. |
| `Decimal.NotNumberText` | api/analise.js:44 | Text starting with anything other than white space, a digit, a sign or a point is NaN. |
| `Decimal.SampleReadings` | api/analise.js:44 | "abc" is NaN, "" is 0, and " 12.5 " is 12.50. |
| `JsValues.Get` | api/analise.js:29 | Reading a property throws exactly on null or undefined. An object gives its own property, or undefined when it has no such property. An array gives its element at an index in range. |
| `JsValues.ToNumber` | api/analise.js:44 | `Number(v)`: undefined and objects are NaN, a number is itself, and a one-element array holding a number is that number. |
| `JsValues.NumberStringRoundTrip` | api/analise.js:44 | A number given as its text, or as a one-element array, coerces back to itself. |
| `JsValues.CoercionEdgeCases` | api/analise.js:44 | An empty array and an empty string coerce to 0. An object and "abc" coerce to NaN. |
| `Handler.Handle` | api/analise.js:12-35 | The status is one of 200, 400, 405 or 500. OPTIONS, and only OPTIONS, gives an empty 200. 405 means exactly neither OPTIONS nor POST. 400 means exactly a POST with a key whose body fails validation. Any other 200 went through the provider and carries a truthy `texto`. |
| `Handler.Respond` | api/analise.js:121-137 | A reply that is not ok gives 500 with `detalhes`. An ok reply with readable data gives 200: `texto` is the extracted content when that is truthy and the fallback text otherwise. A throw or unreadable data gives the generic 500. |
| `Handler.ValidPayload` | api/analise.js:31 | The body passes exactly when `movimentos` is an array and `metas` is neither undefined, null, false, 0 nor the empty text. |
| `Handler.BuildPrompt` | api/analise.js:63-95 | The report request carries `metaPoupanca` as `String` prints it ("undefined" when missing), the six printed totals and the movement list verbatim. |
| `Handler.ProviderPrompt` | api/analise.js:54-95 | The report request built from a request carries the rendered list of its movements and the printed totals of those same movements. |
| `Handler.ContentOfAnyReply` | api/analise.js:130-134 | Whatever other fields a reply holds, its text is the `content` of the `message` of its first choice. That content is returned when truthy, and the fallback text otherwise. |
| `Handler.ReplyContent` | api/analise.js:130-131 | `data.choices?.[0]?.message?.content` throws exactly when `data` itself is null or undefined. |
| `Handler.KeyCheckedBeforeBody` | api/analise.js:20-31 | Without a key, a POST gets the missing-key 500 whatever its body, so validation is never reached. |
| `Handler.NoCallUnlessReached` | api/analise.js:12-35 | A request that stops before the provider call gets the same response whatever the provider would do, and that response is not a 200 unless the request is OPTIONS. |
| `Handler.ReachedSendsReport` | api/analise.js:54-137 | A request that passes every check gets the response to the provider's outcome for the one report request built from it. That request carries the printed totals of its movements and their list verbatim. |
| `Handler.TotalsTextReadsBack` | api/analise.js:78-83 | Each of the six printed totals has two decimals and reads back as the total it prints, in the order income, fixed, variable, card, balance, savings. |
| `Handler.ZeroTotalsText` | api/analise.js:78-83 | All-zero totals print as six times "0.00". |
| `Handler.UnreadableMovementIsInternalError` | api/analise.js:43-44 | A null movement makes the totals loop throw, giving the generic 500. |
| `Handler.NoMovementsPrompt` | api/analise.js:38-86 | With no movements, the report request carries six zero totals and an empty list. |
| `Handler.EmptyMovementsReachProvider` | api/analise.js:29-35 | An empty movement array with truthy goals passes validation and reaches the provider with zero totals and an empty list. |
| `Handler.MissingGoalsRejected` | api/analise.js:31-35 | Movements without goals get 400 with the insufficient-data message. |
| `Handler.UpstreamFailureCarriesDetails` | api/analise.js:123-128 | A reply that is not ok gives 500, and the reply's payload is passed through as `detalhes`. |
| `Handler.OkReplyText` | api/analise.js:130-134 | An ok reply's non-empty `content` is returned as `texto`. Empty content, a missing `choices` or an empty `choices` give the fallback text. |
| `Handler.FallbackExactly` | api/analise.js:130-134 | For readable data, the fallback text is sent exactly when the extracted content is falsy or is that very text. |

## Left out

- CORS headers (`setCors`, lines 2-6) are not modelled: they do not affect the status or the body.
- The network call is out of scope: the `fetch` call, `await`, JSON parsing of the reply, the model name, `max_tokens`, `temperature` and the fixed Portuguese prompt text. The provider is a parameter taking the `Prompt` (only the interpolated values) to `Threw` or `Replied(ok, data)`. A failing `json()` is `Threw`.
- The `process.env.CLIENT_KEY` read is a parameter (`Option<string>`). `console.error` logging is not modelled.
- JavaScript numbers are IEEE doubles. The model holds amounts as exact integer cents, so rounding of sums and of `toFixed(2)` is not modelled.
- `Decimal.ParseCents`: `Number(text)` is read only in the plain decimal form, meaning optional white space, an optional sign, digits and an optional point with up to two digits. Exponents, hexadecimal, "Infinity", more than two fractional digits and white space beyond the listed characters read as NaN in the model.
- `Decimal.FixedTwo`: the exponential form `toFixed` uses from 1e21 upward is not modelled.
- `Decimal.NumberText`: the exponential form `String(number)` uses from 1e21 upward (and below 1e-6) is not modelled. Amounts are whole cents, so the second never arises.
- `JsValues.ToStr` and `JsValues.ToNumber`: an object with an own `toString` field that is not a function (such as `{"toString": 1}`) makes `Number(m.valor)` (line 44) or the template literals (lines 56-58 and 69-75) throw a TypeError, which gives the generic 500 (lines 135-137). The model gives NaN and "[object Object]" for every object and carries on.
- Strings are sequences of characters, not of UTF-16 code units.
- Built-in properties (`length`, prototype members) are not modelled. Property access sees only an object's own fields and an array's elements.
- `Aggregation.Aggregate` is the imperative form of the loop. `Handler.Handle` is a function, so it uses the loop's specification `TotalsOf`, which `Aggregate` is proved to compute.
