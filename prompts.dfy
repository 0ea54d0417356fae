/**
 * The kiosk's prompts, read from a sequence of input lines instead of the
 * terminal. A prompt reads lines from position pos on, re-prompting on
 * input it rejects, until one line decides it; running out of lines is
 * the end of input (Python's input() would raise EOFError there).
 */
module Prompts {
  import opened Text
  import opened Pricing
  import opened Menu
  import opened Wrappers

  /** Slice orders are limited to this many slices. */
  const MaxSlices: nat := 16

  datatype QuantityOutcome = Cancelled | Quantity(n: nat) | EndOfInput

  /** What one answer to a quantity prompt does. */
  datatype LineVerdict = Cancel | Accept(n: nat) | Reprompt

  /** One pass of the quantity loop: "q" in either case cancels, a digit
      string is a quantity (for slices only up to 16), anything else
      repeats the prompt. */
  function QuantityVerdict(kind: OrderType, line: string): LineVerdict {
    var qtyInput := Strip(line);
    if Lower(qtyInput) == "q" then Cancel
    else if IsDigits(qtyInput) then
      var quantity := DigitsValue(qtyInput);
      if kind == Slice && quantity > MaxSlices then Reprompt else Accept(quantity)
    else Reprompt
  }

  /** The three verdicts in terms of the stripped line. */
  lemma QuantityVerdictCases(kind: OrderType, line: string)
    ensures QuantityVerdict(kind, line) == Cancel <==> Strip(line) == "q" || Strip(line) == "Q"
    ensures QuantityVerdict(kind, line).Accept? <==>
              IsDigits(Strip(line)) && (kind == Slice ==> DigitsValue(Strip(line)) <= MaxSlices)
    ensures QuantityVerdict(kind, line).Accept? ==>
              QuantityVerdict(kind, line).n == DigitsValue(Strip(line))
  {
    var s := Strip(line);
    LowerIsLetter(s, 'q');
    if IsDigits(s) {
      assert IsDigit(s[0]);
    }
  }

  datatype QuantityRead = QuantityRead(outcome: QuantityOutcome, next: nat)

  /** The quantity prompt of an order of the given kind, asked from line
      pos on. The lines before the deciding one all re-prompt; the deciding
      one, at next - 1, cancels or gives the quantity; if none decides, all
      input is used up. */
  function ReadQuantity(kind: OrderType, lines: seq<string>, pos: nat): (r: QuantityRead)
    requires pos <= |lines|
    ensures pos <= r.next <= |lines|
    ensures r.outcome == EndOfInput ==>
              r.next == |lines| &&
              forall j {:trigger QuantityVerdict(kind, lines[j])} :: pos <= j < |lines| ==> QuantityVerdict(kind, lines[j]) == Reprompt
    ensures r.outcome != EndOfInput ==>
              pos < r.next &&
              forall j {:trigger QuantityVerdict(kind, lines[j])} :: pos <= j < r.next - 1 ==> QuantityVerdict(kind, lines[j]) == Reprompt
    ensures r.outcome == Cancelled ==>
              pos < r.next && QuantityVerdict(kind, lines[r.next - 1]) == Cancel
    ensures r.outcome.Quantity? ==>
              pos < r.next && QuantityVerdict(kind, lines[r.next - 1]) == Accept(r.outcome.n)
    decreases |lines| - pos
  {
    if pos == |lines| then QuantityRead(EndOfInput, pos)
    else
      match QuantityVerdict(kind, lines[pos])
      case Cancel => QuantityRead(Cancelled, pos + 1)
      case Accept(n) => QuantityRead(Quantity(n), pos + 1)
      case Reprompt => ReadQuantity(kind, lines, pos + 1)
  }

  /** The quantity loop of handle_box_order. */
  method BoxQuantityPrompt(lines: seq<string>, pos: nat) returns (outcome: QuantityOutcome, next: nat)
    requires pos <= |lines|
    ensures QuantityRead(outcome, next) == ReadQuantity(Box, lines, pos)
  {
    next := pos;
    while next < |lines|
      invariant pos <= next <= |lines|
      invariant ReadQuantity(Box, lines, next) == ReadQuantity(Box, lines, pos)
      decreases |lines| - next
    {
      var qtyInput := Strip(lines[next]);
      next := next + 1;
      if Lower(qtyInput) == "q" {
        return Cancelled, next;
      } else if IsDigits(qtyInput) {
        var quantity := DigitsValue(qtyInput);
        return Quantity(quantity), next;
      }
    }
    outcome := EndOfInput;
  }

  /** The quantity loop of handle_slice_order: as for boxes, but a value
      above 16 repeats the prompt. */
  method SliceQuantityPrompt(lines: seq<string>, pos: nat) returns (outcome: QuantityOutcome, next: nat)
    requires pos <= |lines|
    ensures QuantityRead(outcome, next) == ReadQuantity(Slice, lines, pos)
  {
    next := pos;
    while next < |lines|
      invariant pos <= next <= |lines|
      invariant ReadQuantity(Slice, lines, next) == ReadQuantity(Slice, lines, pos)
      decreases |lines| - next
    {
      var qtyInput := Strip(lines[next]);
      next := next + 1;
      if Lower(qtyInput) == "q" {
        return Cancelled, next;
      } else if IsDigits(qtyInput) {
        var quantity := DigitsValue(qtyInput);
        if quantity > MaxSlices {
          continue;
        }
        return Quantity(quantity), next;
      }
    }
    outcome := EndOfInput;
  }

  /** A slice order never gets more than 16 slices. */
  lemma SliceQuantityCapped(lines: seq<string>, pos: nat)
    requires pos <= |lines|
    ensures ReadQuantity(Slice, lines, pos).outcome.Quantity? ==>
              ReadQuantity(Slice, lines, pos).outcome.n <= MaxSlices
  {
    var r := ReadQuantity(Slice, lines, pos);
    if r.outcome.Quantity? {
      QuantityVerdictCases(Slice, lines[r.next - 1]);
    }
  }

  /** The box prompt has no upper limit: the decimal spelling of any n,
      with surrounding blanks or not, is accepted as n. */
  lemma BoxQuantityUncapped(n: nat, lines: seq<string>, pos: nat)
    requires pos < |lines| && Strip(lines[pos]) == NatToDigits(n)
    ensures ReadQuantity(Box, lines, pos) == QuantityRead(Quantity(n), pos + 1)
  {
    QuantityVerdictCases(Box, lines[pos]);
    DigitsRoundTrip(n);
  }

  /** A slice count from 0 to 16 is accepted. */
  lemma SliceQuantityAccepted(n: nat, lines: seq<string>, pos: nat)
    requires n <= MaxSlices
    requires pos < |lines| && Strip(lines[pos]) == NatToDigits(n)
    ensures ReadQuantity(Slice, lines, pos) == QuantityRead(Quantity(n), pos + 1)
  {
    QuantityVerdictCases(Slice, lines[pos]);
    DigitsRoundTrip(n);
  }

  /** A slice count above 16 is skipped: the prompt repeats on the next line. */
  lemma SliceOverCapSkipped(n: nat, lines: seq<string>, pos: nat)
    requires n > MaxSlices
    requires pos < |lines| && Strip(lines[pos]) == NatToDigits(n)
    ensures ReadQuantity(Slice, lines, pos) == ReadQuantity(Slice, lines, pos + 1)
  {
    QuantityVerdictCases(Slice, lines[pos]);
    DigitsRoundTrip(n);
  }

  /** "0", blanks around it or not, passes the digit check, so a quantity
      of zero is accepted for either kind of order. */
  lemma ZeroQuantityAccepted(kind: OrderType, lines: seq<string>, pos: nat)
    requires pos < |lines| && Strip(lines[pos]) == "0"
    ensures ReadQuantity(kind, lines, pos) == QuantityRead(Quantity(0), pos + 1)
  {
    assert NatToDigits(0) == "0";
    if kind == Box {
      BoxQuantityUncapped(0, lines, pos);
    } else {
      SliceQuantityAccepted(0, lines, pos);
    }
  }

  /** A line that is neither "q" nor a digit string only repeats the prompt. */
  lemma InvalidQuantitySkipped(kind: OrderType, lines: seq<string>, pos: nat)
    requires pos < |lines|
    requires !IsDigits(Strip(lines[pos]))
    requires Strip(lines[pos]) != "q" && Strip(lines[pos]) != "Q"
    ensures ReadQuantity(kind, lines, pos) == ReadQuantity(kind, lines, pos + 1)
  {
    QuantityVerdictCases(kind, lines[pos]);
  }

  /** "q" or "Q", blanks around it or not, cancels at once. */
  lemma QuitCancelsQuantity(kind: OrderType, lines: seq<string>, pos: nat)
    requires pos < |lines|
    requires Strip(lines[pos]) == "q" || Strip(lines[pos]) == "Q"
    ensures ReadQuantity(kind, lines, pos) == QuantityRead(Cancelled, pos + 1)
  {
    QuantityVerdictCases(kind, lines[pos]);
  }

  datatype OrderChoice = ChoseBox | ChoseSlice | ChoseCancel

  /** One pass of the box-or-slice loop: "B", "S" or "Q" in either case
      decides it, anything else repeats the prompt. */
  function ChoiceVerdict(line: string): Option<OrderChoice> {
    var choice := Upper(Strip(line));
    if choice == "B" then Some(ChoseBox)
    else if choice == "S" then Some(ChoseSlice)
    else if choice == "Q" then Some(ChoseCancel)
    else None
  }

  /** The verdicts in terms of the stripped line. */
  lemma ChoiceVerdictCases(line: string)
    ensures ChoiceVerdict(line) == Some(ChoseBox) <==> Strip(line) == "B" || Strip(line) == "b"
    ensures ChoiceVerdict(line) == Some(ChoseSlice) <==> Strip(line) == "S" || Strip(line) == "s"
    ensures ChoiceVerdict(line) == Some(ChoseCancel) <==> Strip(line) == "Q" || Strip(line) == "q"
  {
    var s := Strip(line);
    UpperIsLetter(s, 'B');
    UpperIsLetter(s, 'S');
    UpperIsLetter(s, 'Q');
  }

  /** The answer that decided the prompt, None at the end of input. */
  datatype ChoiceRead = ChoiceRead(choice: Option<OrderChoice>, next: nat)

  /** The box-or-slice prompt asked from line pos on: the first line with a
      verdict decides, the ones before it re-prompt. */
  function ReadOrderChoice(lines: seq<string>, pos: nat): (r: ChoiceRead)
    requires pos <= |lines|
    ensures pos <= r.next <= |lines|
    ensures r.choice == None ==>
              r.next == |lines| &&
              forall j {:trigger ChoiceVerdict(lines[j])} :: pos <= j < |lines| ==> ChoiceVerdict(lines[j]) == None
    ensures r.choice != None ==>
              pos < r.next &&
              ChoiceVerdict(lines[r.next - 1]) == r.choice &&
              forall j {:trigger ChoiceVerdict(lines[j])} :: pos <= j < r.next - 1 ==> ChoiceVerdict(lines[j]) == None
    decreases |lines| - pos
  {
    if pos == |lines| then ChoiceRead(None, pos)
    else
      var verdict := ChoiceVerdict(lines[pos]);
      if verdict.Some? then ChoiceRead(verdict, pos + 1)
      else ReadOrderChoice(lines, pos + 1)
  }

  /** What one answer at the main menu does. */
  datatype MenuChoice = Quit | Pick(key: string) | Invalid

  /** The main menu: "q" in either case quits, a menu key picks that pizza,
      anything else is reported and the menu is shown again. */
  function MenuVerdict(line: string): MenuChoice {
    var choice := Lower(Strip(line));
    if choice == "q" then Quit
    else if choice in PizzaData then Pick(choice)
    else Invalid
  }

  /** A pick is always one of the keys 1 to 9, and is the stripped line
      itself: lower-casing does not change a digit. */
  lemma MenuVerdictCases(line: string)
    ensures MenuVerdict(line) == Quit <==> Strip(line) == "q" || Strip(line) == "Q"
    ensures MenuVerdict(line).Pick? <==> IsMenuKey(Strip(line))
    ensures MenuVerdict(line).Pick? ==> MenuVerdict(line).key == Strip(line)
  {
    var s := Strip(line);
    LowerIsLetter(s, 'q');
    MenuKeys(Lower(s));
    MenuKeys(s);
    if IsMenuKey(s) {
      assert Lower(s) == s;
    }
    if IsMenuKey(Lower(s)) {
      assert s == Lower(s);
    }
  }
}
