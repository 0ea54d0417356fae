# RushMore Pizzeria kiosk: pricing engine and order flow in Dafny

This project models the pricing core of the RushMore Pizzeria ordering kiosk
(`Rushmore_pizza_v2.py`) and proves properties about it. The core has these parts:

- **Discount policy.** A box order gets 10% off for 5 to 9 boxes and 20% from
  10 boxes on. A slice order gets 5% off from 8 slices on. The Pizza of the Day
  adds 25 percentage points to either base rate. `discount_applied` is set
  exactly when the final rate is positive. Rates are whole percents.
- **Payment calculator.** `calculate_payment` is the undiscounted total minus
  its discount. Money is a `real`.
- **Prompts.** These are the `while True` loops of the box and slice quantity
  prompts, the Box/Slice/Quit prompt, and the main menu. They read a sequence
  of input lines instead of the terminal. A prompt reads lines until one of
  them decides it. If the lines run out first, that is the end of input, and
  the run stops there, as an `EOFError` from `input()` would stop it.
- **Menu.** There are nine fixed pizzas, keyed `"1"` to `"9"`.
- **Order log.** It is modelled as a list of records. A log that parses keeps
  its records and gains the new one at the end. A missing log, or one whose
  UTF-8 text is not valid JSON, is replaced by the new record alone.

Modules:

- `Text`: the Python string operations the prompts use, on ASCII: `strip`,
  `lower`, `upper`, `isdigit` and `int`.
- `Pricing`: the discount policy and the payment.
- `Menu`: the menu and key lookup.
- `Orders`: order records, the log file, and the `OrderLog` class whose
  `SaveOrder` rewrites it.
- `Prompts`: the prompt loops as methods. Each method is proved equal to a
  recursive specification function over the input lines.
- `Kiosk`: the box and slice handlers, pizza selection and the main loop, over
  one `OrderLog`.

The top-level result is `Kiosk.MainSystem`. After a session, the log holds
what it loaded plus the orders of that session, in the order they were placed.
If no order was placed, the log is untouched. `Kiosk.SessionCharged` proves
that every saved order is priced by the discount policy for one of the nine
menu items.

Two behaviours of the code that are easy to miss are modelled as written:

- A quantity of `0` is accepted for boxes and slices, because `"0".isdigit()`
  holds. A zero-total record is then saved (lines 73-74 and 114-115).
- Cancelling at a quantity prompt returns to the main menu, not to the pizza's
  box-or-slice prompt. The handler returns, and the selection loop then breaks
  (lines 70-72, 111-113 and 160-164).

## Model

| member | source | states |
|---|---|---|
| Text.StripKeepsCore | Rushmore_pizza_v2.py:69 | `strip()` keeps the shortest slice of the line that contains every non-whitespace character; neither end of the result is whitespace |
| Text.LowerIsLetter | Rushmore_pizza_v2.py:70 | `s.lower()` equals a one-letter lower-case string exactly when `s` is that letter in either case |
| Text.UpperIsLetter | Rushmore_pizza_v2.py:158 | `s.upper()` equals a one-letter upper-case string exactly when `s` is that letter in either case |
| Text.DigitsValue | Rushmore_pizza_v2.py:74 | `int()` of a digit string of length k is a natural number below 10^k |
| Text.DigitsRoundTrip | Rushmore_pizza_v2.py:73-74 | `int(str(n)) == n` for every natural n, so every decimal spelling passes `isdigit` and reads back as itself |
| Text.LeadingZeroIgnored | Rushmore_pizza_v2.py:74 | a leading `0` does not change the value `int()` gives to a digit string |
| Pricing.DiscountRate | Rushmore_pizza_v2.py:79-88 | the final rate of any order is one of 0, 5, 10, 20, 25, 30, 35, 45 percent, so it is always below 100 (the same rule appears again at lines 123-126) |
| Pricing.BoxBaseRateTiers | Rushmore_pizza_v2.py:80-84 | box base rate is 0 below 5 boxes, 10 for 5 to 9, 20 from 10 on |
| Pricing.SliceBaseRateTier | Rushmore_pizza_v2.py:124 | slice base rate is 5 exactly when at least 8 slices, else 0 |
| Pricing.PizzaOfDayAddsBonus | Rushmore_pizza_v2.py:86-88 | for either order type the Pizza of the Day adds exactly 25 points to the base rate, which is the rate for any other pizza |
| Pricing.DiscountAppliedIff | Rushmore_pizza_v2.py:90 | `discount_applied` holds iff the pizza is the Pizza of the Day or the quantity reaches its type's first tier; so it always holds for the Pizza of the Day |
| Pricing.RateIsFraction | Rushmore_pizza_v2.py:80-88 | every slice or box rate is a fraction in [0, 1) |
| Pricing.PaymentClosedForm | Rushmore_pizza_v2.py:51-57 | the payment equals price × quantity × (1 − rate) |
| Pricing.PaymentWithoutDiscount | Rushmore_pizza_v2.py:51-57 | with rate 0 the payment is price × quantity |
| Pricing.PaymentBounds | Rushmore_pizza_v2.py:51-57 | for a non-negative price and quantity and a rate in [0, 1), the payment lies between 0 and the undiscounted total |
| Pricing.PaymentExamples | Rushmore_pizza_v2.py:51-57 | 10 boxes at 4.00 with the 20% tier cost 32.00; 8 slices at 8.00 with 5% plus the 25% bonus cost 44.80 |
| Menu.MenuKeys | Rushmore_pizza_v2.py:7-17 | the menu's keys are exactly the one-character strings `1` to `9` |
| Menu.Lookup | Rushmore_pizza_v2.py:143-146 | a key finds an item exactly when it is `1` to `9`; the item found is the menu's entry for that key, with a positive box price |
| Menu.NamesDistinct | Rushmore_pizza_v2.py:7-23 | no two menu entries share a name, so the name comparison with the Pizza of the Day singles out one entry |
| Orders.Appended | Rushmore_pizza_v2.py:38-49 | the list written by one save is the loaded list (empty for a missing or unparseable file) followed by the new order, one longer |
| Orders.Saved | Rushmore_pizza_v2.py:38-49 | saving nothing leaves the file as it is; saving one or more orders in turn leaves a parsed file with the originally loaded records followed by all the new orders, in order |
| Orders.SavedConcat | Rushmore_pizza_v2.py:38-49 | saving a list of orders then another equals saving their concatenation |
| Orders.SaveToParsedLog | Rushmore_pizza_v2.py:40-46 | a parsed log keeps its records and order and grows by exactly one |
| Orders.SaveToUnreadableLog | Rushmore_pizza_v2.py:38-49 | an unparseable or missing log becomes exactly the one new record |
| Orders.TwoSavesFromScratch | Rushmore_pizza_v2.py:38-49 | two saves starting from no log or a corrupt log give exactly those two records in insertion order |
| Orders.OrderLog.SaveOrder | Rushmore_pizza_v2.py:25-49 | the file after a save is the parsed list of loaded records plus the record built from the arguments |
| Prompts.QuantityVerdictCases | Rushmore_pizza_v2.py:69-77 | one quantity answer cancels iff it strips to `q` or `Q`; it is accepted iff it strips to a digit string (for slices with value at most 16), and the quantity is that string's value |
| Prompts.ReadQuantity | Rushmore_pizza_v2.py:68-78 | the prompt's outcome comes from the first line that does not re-prompt; every earlier line re-prompts; with no such line, all input is consumed (the slice loop at lines 109-121 has the same shape, with its cap in the verdict) |
| Prompts.BoxQuantityPrompt | Rushmore_pizza_v2.py:68-78 | the box quantity loop returns the outcome and the position that the prompt specification gives |
| Prompts.SliceQuantityPrompt | Rushmore_pizza_v2.py:109-121 | the slice quantity loop, with its skip for values over 16, returns the outcome and position that the prompt specification gives |
| Prompts.SliceQuantityCapped | Rushmore_pizza_v2.py:116-119 | a slice quantity that is accepted is never above 16 |
| Prompts.BoxQuantityUncapped | Rushmore_pizza_v2.py:73-75 | the box prompt accepts the decimal spelling of any natural number as that number: there is no upper cap |
| Prompts.SliceQuantityAccepted | Rushmore_pizza_v2.py:114-119 | the slice prompt accepts any count from 0 to 16 |
| Prompts.SliceOverCapSkipped | Rushmore_pizza_v2.py:116-118 | a slice count above 16 yields nothing, and the prompt goes on with the next line |
| Prompts.ZeroQuantityAccepted | Rushmore_pizza_v2.py:73-74 | `0`, with or without surrounding blanks, is accepted as quantity 0 for boxes and for slices (the same rule appears again at lines 114-115) |
| Prompts.InvalidQuantitySkipped | Rushmore_pizza_v2.py:76-77 | an answer that is neither `q` nor a digit string yields nothing, and the prompt goes on with the next line |
| Prompts.QuitCancelsQuantity | Rushmore_pizza_v2.py:70-72 | `q` or `Q`, with or without surrounding blanks, cancels on that line |
| Prompts.ChoiceVerdictCases | Rushmore_pizza_v2.py:158-169 | the box-or-slice answer chooses Box, Slice or Cancel iff it strips to that letter in either case |
| Prompts.ReadOrderChoice | Rushmore_pizza_v2.py:157-169 | the box-or-slice choice comes from the first line with a verdict; every earlier line re-prompts; with none, all input is consumed |
| Prompts.MenuVerdictCases | Rushmore_pizza_v2.py:189-196 | the main menu quits iff the line strips to `q` or `Q`, and picks a pizza iff it strips to a key `1` to `9`, which is then the picked key |
| Kiosk.HandleBoxOrder | Rushmore_pizza_v2.py:59-98 | the box handler reads what the quantity prompt reads; when the prompt yields a quantity n, the log becomes the loaded records plus one box record of n of the pizza at the policy's discounted box price; otherwise the log is unchanged |
| Kiosk.HandleSliceOrder | Rushmore_pizza_v2.py:100-135 | the slice handler reads what the slice prompt reads; when it yields a count n (at most 16), the log becomes the loaded records plus one slice record of n at the policy's discounted slice price; otherwise the log is unchanged |
| Kiosk.PizzaSelectionOrder | Rushmore_pizza_v2.py:137-171 | an unknown key reads nothing and changes nothing; for a known key, a `B` answer runs the box handler at the pizza's box price, an `S` answer runs the slice handler at its slice price, and `Q` or running out of input leaves the log unchanged |
| Kiosk.MainSystem | Rushmore_pizza_v2.py:173-196 | after a session the log is the loaded log with the session's orders appended in order, and is untouched when none was placed |
| Kiosk.CancelledOrderSavesNothing | Rushmore_pizza_v2.py:70-72 | `q` or `Q` at a quantity prompt ends the handler after that one line, with nothing saved and input not exhausted (the same rule appears again at lines 111-113) |
| Kiosk.QuantityCancelReturnsToMenu | Rushmore_pizza_v2.py:157-164 | a menu pick, a `B` or `S` answer, then `q` at the quantity prompt save nothing, and the main menu reads the next line: the session's orders are those of the rest of the input (the main-menu loop that reads it is lines 189-194) |
| Kiosk.ChoiceCancelReturnsToMenu | Rushmore_pizza_v2.py:165-167 | a menu pick followed by `q` at the box-or-slice prompt saves nothing, and the main menu reads the next line (the main-menu loop that reads it is lines 189-194) |
| Kiosk.OverCapSliceSavesNothing | Rushmore_pizza_v2.py:116-118 | a slice answer above 16 saves nothing for that answer; the order continues as if the line had not been typed |
| Kiosk.ZeroQuantityOrder | Rushmore_pizza_v2.py:73-98 | a quantity of `0`, with or without surrounding blanks, completes the order and saves a record of quantity 0 with total 0 |
| Kiosk.OrderVisitSavesAccepted | Rushmore_pizza_v2.py:73-98 | a handler saves a record exactly when its quantity prompt yields a quantity; the record has that quantity, the handler's order type, the pizza's name and the timestamp at which the quantity was read |
| Kiosk.MenuQuitEndsSession | Rushmore_pizza_v2.py:189-192 | `q` or `Q` at the main menu, with or without surrounding blanks, ends the session: no further order is saved |
| Kiosk.InvalidMenuLineSkipped | Rushmore_pizza_v2.py:189-196 | a main-menu line that is neither `q` nor a key `1` to `9` saves nothing, and the menu is asked again on the next line |
| Kiosk.CompletedBoxOrderSaved | Rushmore_pizza_v2.py:159-161 | a menu pick, `B`, then the decimal spelling of any n saves exactly one box record of n of the picked pizza at its box price, and the main menu reads the next line |
| Kiosk.CompletedSliceOrderSaved | Rushmore_pizza_v2.py:162-164 | a menu pick, `S`, then a count n of at most 16 saves exactly one slice record of n of the picked pizza at its slice price, and the main menu reads the next line |
| Kiosk.OrderVisitCharged | Rushmore_pizza_v2.py:79-98 | any record a handler saves names its pizza, is priced at the unit price less the policy's rate, flags the discount iff the rate is positive, and has at most 16 slices |
| Kiosk.SelectionVisitCharged | Rushmore_pizza_v2.py:143-169 | any record a selection saves is charged for the picked menu item, and it is a box order exactly when the box-or-slice answer was `B` |
| Kiosk.SessionCharged | Rushmore_pizza_v2.py:183-196 | every record a session saves is charged by the policy for one of the nine menu items |
| Kiosk.SessionPizzaOfDayDiscounted | Rushmore_pizza_v2.py:86-90 | every saved order of the Pizza of the Day is marked as discounted |

## Left out

- Console output is not modelled. This covers the banner, the menu listing, the Pizza of the Day notice, prices, discount percentages and error messages. The `print` calls have no effect on the state.
- The random choice of the Pizza of the Day (lines 22-23) is not modelled. Its name is a parameter, `Setting.pizzaOfDay`.
- `datetime.now()` (line 30) is not modelled. The timestamp text is `Setting.clock(k)`, taken after k input lines have been read.
- The slice price `round(price / 8, 2)` (line 147) is not modelled, because it uses binary-float banker's rounding. It is the parameter `Setting.slicePrice`, applied to the box price.
- Floating point is not modelled. Rates are whole percents, and prices and payments are exact reals. The sum `0.05 + 0.25`, the display `int(discount_rate * 100)` and the `:.2f` formatting are out.
- JSON text, indentation, and file opening and existence checks are not modelled. The log is a `LogFile` value: missing, unparseable, or a parsed list of records.
- The byte-level write quirk is not modelled. The file is rewritten after `seek(0)` with no truncate (lines 45-46). If the new text is shorter than the old, for example after a long corrupt file, stale bytes stay at the end and the next load fails. The model takes every save to leave a parsed file.
- A log whose bytes are not valid UTF-8 is not modelled. There, `json.load` raises `UnicodeDecodeError`, which is not caught (only `JSONDecodeError` is, line 42), so the program stops and the file is not rewritten. `LogFile.Corrupt` means UTF-8 text that is not valid JSON.
- A log that parses as JSON but is not a list has no `LogFile` state. There, `data.append` would raise.
- Text handling covers ASCII only. `strip()` removes ASCII whitespace only. `isdigit()` accepts only ASCII digits, so characters such as superscript digits, which pass `isdigit` and then make `int()` raise, are out. `upper()` and `lower()` change only ASCII letters, so `'ſ'.upper() == 'S'` is out.
- The end of input is modelled as stopping the run with no further saves. The traceback of `EOFError` and interrupts such as `KeyboardInterrupt` are out.
- Text.Strip: its own contract gives only a length bound. Its full characterisation is the lemma `Text.StripKeepsCore`.
- Kiosk.OrderVisit, Kiosk.SelectionVisit: their own contracts give only the range of the next position. When and what they save is stated by `Kiosk.OrderVisitSavesAccepted`, `Kiosk.OrderVisitCharged` and `Kiosk.SelectionVisitCharged`, and at the level of a session by `Kiosk.CompletedBoxOrderSaved`, `Kiosk.CompletedSliceOrderSaved`, `Kiosk.QuantityCancelReturnsToMenu` and `Kiosk.ChoiceCancelReturnsToMenu`.
- Prompts.BoxQuantityUncapped, Prompts.SliceOverCapSkipped, Prompts.BoxQuantityPrompt, Prompts.SliceQuantityPrompt, Kiosk.OverCapSliceSavesNothing, Kiosk.HandleBoxOrder, Kiosk.HandleSliceOrder: very long quantity answers are not modelled. On CPython 3.11 and later, and on the 2022 security releases of 3.7 to 3.10, `int()` of more than 4300 digits raises `ValueError` (lines 74 and 115). Nothing catches it, so the program stops. The model instead accepts such a box answer and re-prompts on such a slice answer.
- Kiosk.HandleBoxOrder, Kiosk.CompletedBoxOrderSaved: a box quantity of at least 2^1024 is not modelled. When `int()` accepts such an answer (from 309 up to 4300 digits, or at any length on interpreters without the digit limit), `price * quantity` (line 55) cannot convert the integer to a float and raises `OverflowError`, which stops the program before any save. A longer answer on an interpreter with the limit raises `ValueError` at line 74 first, as the line above says. The model saves a record with an exact real total.
- Concurrent processes appending to the same log are not modelled, because the kiosk is single-instance.
