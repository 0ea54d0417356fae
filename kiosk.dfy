/**
 * The kiosk's order flow: the box and slice handlers, the box-or-slice
 * selection for a menu key, and the main menu loop, over one log. Each
 * method is tied to a specification function saying which lines it reads
 * and which record, if any, it saves.
 */
module Kiosk {
  import opened Wrappers
  import opened Text
  import opened Pricing
  import opened Menu
  import opened Orders
  import opened Prompts

  /** What stays fixed for one run, passed explicitly instead of being
      read from globals, the random generator or the system clock. */
  datatype Setting = Setting(
    pizzaOfDay: string,         // name of the Pizza of the Day, drawn at start-up
    slicePrice: real -> real,   // the slice price shown for a box price (rounded to cents)
    clock: nat -> Timestamp)    // the order_datetime text once k input lines have been read

  /** What one visit to a prompt did: the order it saved, if any, the
      position of the next unread line, and whether input ran out. */
  datatype Visit = Visit(saved: Option<OrderRecord>, next: nat, halted: bool)

  function SeqOf(o: Option<OrderRecord>): (s: seq<OrderRecord>)
    ensures |s| <= 1
  {
    match o
    case Some(r) => [r]
    case None => []
  }

  /** The record of a completed order of quantity units of a pizza at
      unitPrice each. */
  function Placed(kind: OrderType, pizzaName: string, unitPrice: real, quantity: nat,
                  setting: Setting, stamp: Timestamp): OrderRecord
  {
    var discountRate := DiscountRate(kind, quantity, pizzaName == setting.pizzaOfDay);
    OrderRecord(stamp, pizzaName, kind, quantity,
                Payment(unitPrice, quantity, Fraction(discountRate)),
                DiscountApplied(discountRate))
  }

  /** handle_box_order or handle_slice_order, asked from line pos on: a
      record is saved exactly when the quantity prompt yields a quantity. */
  function OrderVisit(kind: OrderType, pizzaName: string, unitPrice: real, setting: Setting,
                      lines: seq<string>, pos: nat): (v: Visit)
    requires pos <= |lines|
    ensures pos <= v.next <= |lines|
    ensures v.halted ==> v.saved == None && v.next == |lines|
  {
    var read := ReadQuantity(kind, lines, pos);
    match read.outcome
    case Quantity(n) =>
      Visit(Some(Placed(kind, pizzaName, unitPrice, n, setting, setting.clock(read.next))),
            read.next, false)
    case Cancelled => Visit(None, read.next, false)
    case EndOfInput => Visit(None, read.next, true)
  }

  /** pizza_selection_order for a key, asked from line pos on. */
  function SelectionVisit(pizzaType: string, setting: Setting, lines: seq<string>, pos: nat): (v: Visit)
    requires pos <= |lines|
    ensures pos <= v.next <= |lines|
    ensures v.halted ==> v.saved == None
  {
    if pizzaType !in PizzaData then Visit(None, pos, false)
    else
      var pizza := PizzaData[pizzaType];
      var read := ReadOrderChoice(lines, pos);
      match read.choice
      case None => Visit(None, read.next, true)
      case Some(ChoseBox) => OrderVisit(Box, pizza.name, pizza.price, setting, lines, read.next)
      case Some(ChoseSlice) =>
        OrderVisit(Slice, pizza.name, setting.slicePrice(pizza.price), setting, lines, read.next)
      case Some(ChoseCancel) => Visit(None, read.next, false)
  }

  /** The orders a run of main_system saves, in order, when it reads the
      main menu prompt at line pos. */
  function Session(setting: Setting, lines: seq<string>, pos: nat): seq<OrderRecord>
    requires pos <= |lines|
    decreases |lines| - pos
  {
    if pos == |lines| then []
    else
      match MenuVerdict(lines[pos])
      case Quit => []
      case Invalid => Session(setting, lines, pos + 1)
      case Pick(key) =>
        var v := SelectionVisit(key, setting, lines, pos + 1);
        if v.halted then [] else SeqOf(v.saved) + Session(setting, lines, v.next)
  }

  /** A pick at the main menu: the orders of the session are those of the
      selection, then, unless input ran out, those of the rest. */
  lemma SessionAfterPick(setting: Setting, lines: seq<string>, pos: nat, key: string)
    requires pos < |lines| && MenuVerdict(lines[pos]) == Pick(key)
    ensures var v := SelectionVisit(key, setting, lines, pos + 1);
            Session(setting, lines, pos) ==
              if v.halted then [] else SeqOf(v.saved) + Session(setting, lines, v.next)
  {
  }

  /** handle_box_order: read the quantity, price it, save it. */
  method HandleBoxOrder(log: OrderLog, pizzaName: string, price: real, setting: Setting,
                        lines: seq<string>, pos: nat) returns (next: nat, halted: bool)
    requires pos <= |lines|
    modifies log
    ensures var v := OrderVisit(Box, pizzaName, price, setting, lines, pos);
            next == v.next && halted == v.halted &&
            log.file == Saved(old(log.file), SeqOf(v.saved))
    ensures var read := ReadQuantity(Box, lines, pos);
            read.outcome.Quantity? ==>
              log.file == Parsed(Loaded(old(log.file)) +
                                 [Placed(Box, pizzaName, price, read.outcome.n, setting, setting.clock(next))])
    ensures !ReadQuantity(Box, lines, pos).outcome.Quantity? ==> log.file == old(log.file)
  {
    var outcome;
    outcome, next := BoxQuantityPrompt(lines, pos);
    halted := outcome.EndOfInput?;
    if outcome.Quantity? {
      var quantity := outcome.n;
      var discountRate := DiscountRate(Box, quantity, pizzaName == setting.pizzaOfDay);
      var discountApplied := DiscountApplied(discountRate);
      var total := Payment(price, quantity, Fraction(discountRate));
      log.SaveOrder(setting.clock(next), pizzaName, Box, quantity, total, discountApplied);
    }
  }

  /** handle_slice_order: read the slice count, price it, save it. */
  method HandleSliceOrder(log: OrderLog, pizzaName: string, slicePrice: real, setting: Setting,
                          lines: seq<string>, pos: nat) returns (next: nat, halted: bool)
    requires pos <= |lines|
    modifies log
    ensures var v := OrderVisit(Slice, pizzaName, slicePrice, setting, lines, pos);
            next == v.next && halted == v.halted &&
            log.file == Saved(old(log.file), SeqOf(v.saved))
    ensures var read := ReadQuantity(Slice, lines, pos);
            read.outcome.Quantity? ==>
              log.file == Parsed(Loaded(old(log.file)) +
                                 [Placed(Slice, pizzaName, slicePrice, read.outcome.n, setting, setting.clock(next))])
    ensures !ReadQuantity(Slice, lines, pos).outcome.Quantity? ==> log.file == old(log.file)
  {
    var outcome;
    outcome, next := SliceQuantityPrompt(lines, pos);
    halted := outcome.EndOfInput?;
    if outcome.Quantity? {
      var quantity := outcome.n;
      var discountRate := DiscountRate(Slice, quantity, pizzaName == setting.pizzaOfDay);
      var discountApplied := DiscountApplied(discountRate);
      var total := Payment(slicePrice, quantity, Fraction(discountRate));
      log.SaveOrder(setting.clock(next), pizzaName, Slice, quantity, total, discountApplied);
    }
  }

  /** pizza_selection_order: look the key up, then ask box or slice until
      one of B, S or Q is given, and hand over to the chosen handler. */
  method PizzaSelectionOrder(log: OrderLog, pizzaType: string, setting: Setting,
                             lines: seq<string>, pos: nat) returns (next: nat, halted: bool)
    requires pos <= |lines|
    modifies log
    ensures var v := SelectionVisit(pizzaType, setting, lines, pos);
            next == v.next && halted == v.halted &&
            log.file == Saved(old(log.file), SeqOf(v.saved))
    ensures pizzaType !in PizzaData ==> next == pos && !halted && log.file == old(log.file)
    ensures pizzaType in PizzaData && ReadOrderChoice(lines, pos).choice == Some(ChoseBox) ==>
              var item := PizzaData[pizzaType];
              var v := OrderVisit(Box, item.name, item.price, setting, lines, ReadOrderChoice(lines, pos).next);
              next == v.next && log.file == Saved(old(log.file), SeqOf(v.saved))
    ensures pizzaType in PizzaData && ReadOrderChoice(lines, pos).choice == Some(ChoseSlice) ==>
              var item := PizzaData[pizzaType];
              var v := OrderVisit(Slice, item.name, setting.slicePrice(item.price), setting, lines,
                                  ReadOrderChoice(lines, pos).next);
              next == v.next && log.file == Saved(old(log.file), SeqOf(v.saved))
    ensures ReadOrderChoice(lines, pos).choice !in {Some(ChoseBox), Some(ChoseSlice)} ==>
              log.file == old(log.file)
  {
    next, halted := pos, false;
    var found := Lookup(pizzaType);
    if found.Some? {
      var pizza := found.value;
      var name, price := pizza.name, pizza.price;
      var slicePrice := setting.slicePrice(price);
      while next < |lines|
        invariant pos <= next <= |lines|
        invariant ReadOrderChoice(lines, next) == ReadOrderChoice(lines, pos)
        invariant log.file == old(log.file)
        decreases |lines| - next
      {
        var choice := Upper(Strip(lines[next]));
        next := next + 1;
        if choice == "B" {
          next, halted := HandleBoxOrder(log, name, price, setting, lines, next);
          return;
        } else if choice == "S" {
          next, halted := HandleSliceOrder(log, name, slicePrice, setting, lines, next);
          return;
        } else if choice == "Q" {
          return;
        }
      }
      halted := true;
    }
  }

  /** main_system: show the menu and read a choice until "q" is given or
      the input runs out. The log ends up holding what it loaded plus the
      orders of the session, in the order they were placed. */
  method MainSystem(log: OrderLog, setting: Setting, lines: seq<string>)
    modifies log
    ensures log.file == Saved(old(log.file), Session(setting, lines, 0))
  {
    var next := 0;
    ghost var final := Saved(log.file, Session(setting, lines, 0));
    while next < |lines|
      invariant next <= |lines|
      invariant final == Saved(log.file, Session(setting, lines, next))
      decreases |lines| - next
    {
      ghost var at := next;
      var choice := MenuVerdict(lines[next]);
      next := next + 1;
      match choice {
        case Quit =>
          assert Session(setting, lines, at) == [];
          return;
        case Pick(pizzaType) =>
          SessionAfterPick(setting, lines, at, pizzaType);
          ghost var v := SelectionVisit(pizzaType, setting, lines, next);
          ghost var before := log.file;
          var halted;
          next, halted := PizzaSelectionOrder(log, pizzaType, setting, lines, next);
          if halted {
            assert Session(setting, lines, at) == [];
            return;
          }
          SavedConcat(before, SeqOf(v.saved), Session(setting, lines, next));
        case Invalid =>
          assert Session(setting, lines, at) == Session(setting, lines, next);
      }
    }
  }

  /** A record is charged for a menu item when it names that item, its
      total is the item's box or slice price times the quantity less the
      policy's discount, its flag says whether that discount is positive,
      and a slice order is within the cap. */
  ghost predicate ChargedFor(r: OrderRecord, item: MenuItem, setting: Setting) {
    var unitPrice := if r.orderType == Box then item.price else setting.slicePrice(item.price);
    var rate := DiscountRate(r.orderType, r.quantity, item.name == setting.pizzaOfDay);
    && r.pizzaType == item.name
    && r.totalPrice == Payment(unitPrice, r.quantity, Fraction(rate))
    && r.discountApplied == DiscountApplied(rate)
    && (r.orderType == Slice ==> r.quantity <= MaxSlices)
  }

  ghost predicate ChargedFromMenu(r: OrderRecord, setting: Setting) {
    exists key :: key in PizzaData && ChargedFor(r, PizzaData[key], setting)
  }

  /** "q" at a quantity prompt ends the order with nothing saved; the
      handler has read just that line. */
  lemma CancelledOrderSavesNothing(kind: OrderType, pizzaName: string, unitPrice: real,
                                   setting: Setting, lines: seq<string>, pos: nat)
    requires pos < |lines|
    requires Strip(lines[pos]) == "q" || Strip(lines[pos]) == "Q"
    ensures OrderVisit(kind, pizzaName, unitPrice, setting, lines, pos) == Visit(None, pos + 1, false)
  {
    QuitCancelsQuantity(kind, lines, pos);
  }

  /** Picking a pizza, answering B or S, then cancelling the quantity with
      "q" saves nothing, and the line after the cancel is read by the main
      menu again: the session goes on as if those three lines were absent. */
  lemma QuantityCancelReturnsToMenu(setting: Setting, lines: seq<string>, pos: nat)
    requires pos + 2 < |lines|
    requires IsMenuKey(Strip(lines[pos]))
    requires Strip(lines[pos + 1]) in {"B", "b", "S", "s"}
    requires Strip(lines[pos + 2]) == "q" || Strip(lines[pos + 2]) == "Q"
    ensures Session(setting, lines, pos) == Session(setting, lines, pos + 3)
  {
    var key := Strip(lines[pos]);
    MenuVerdictCases(lines[pos]);
    MenuKeys(key);
    SessionAfterPick(setting, lines, pos, key);
    ChoiceVerdictCases(lines[pos + 1]);
    var item := PizzaData[key];
    if ChoiceVerdict(lines[pos + 1]) == Some(ChoseBox) {
      assert ReadOrderChoice(lines, pos + 1) == ChoiceRead(Some(ChoseBox), pos + 2);
      CancelledOrderSavesNothing(Box, item.name, item.price, setting, lines, pos + 2);
    } else {
      assert ReadOrderChoice(lines, pos + 1) == ChoiceRead(Some(ChoseSlice), pos + 2);
      CancelledOrderSavesNothing(Slice, item.name, setting.slicePrice(item.price), setting, lines, pos + 2);
    }
  }

  /** Picking a pizza and then answering "q" at the box-or-slice prompt
      saves nothing and returns to the main menu. */
  lemma ChoiceCancelReturnsToMenu(setting: Setting, lines: seq<string>, pos: nat)
    requires pos + 1 < |lines|
    requires IsMenuKey(Strip(lines[pos]))
    requires Strip(lines[pos + 1]) == "q" || Strip(lines[pos + 1]) == "Q"
    ensures Session(setting, lines, pos) == Session(setting, lines, pos + 2)
  {
    var key := Strip(lines[pos]);
    MenuVerdictCases(lines[pos]);
    MenuKeys(key);
    SessionAfterPick(setting, lines, pos, key);
    ChoiceVerdictCases(lines[pos + 1]);
    assert ReadOrderChoice(lines, pos + 1) == ChoiceRead(Some(ChoseCancel), pos + 2);
  }

  /** "q" or "Q" at the main menu ends the session: nothing more is saved. */
  lemma MenuQuitEndsSession(setting: Setting, lines: seq<string>, pos: nat)
    requires pos < |lines|
    requires Strip(lines[pos]) == "q" || Strip(lines[pos]) == "Q"
    ensures Session(setting, lines, pos) == []
  {
    MenuVerdictCases(lines[pos]);
  }

  /** A main-menu line that is neither "q" nor a key 1 to 9 saves nothing,
      and the menu is asked again on the next line. */
  lemma InvalidMenuLineSkipped(setting: Setting, lines: seq<string>, pos: nat)
    requires pos < |lines|
    requires Strip(lines[pos]) != "q" && Strip(lines[pos]) != "Q"
    requires !IsMenuKey(Strip(lines[pos]))
    ensures Session(setting, lines, pos) == Session(setting, lines, pos + 1)
  {
    MenuVerdictCases(lines[pos]);
  }

  /** Picking a pizza, answering B, then giving a box count n saves one box
      order of n of that pizza at its box price, and the main menu reads
      the next line. */
  lemma CompletedBoxOrderSaved(setting: Setting, lines: seq<string>, pos: nat, n: nat)
    requires pos + 2 < |lines|
    requires IsMenuKey(Strip(lines[pos]))
    requires Strip(lines[pos + 1]) == "B" || Strip(lines[pos + 1]) == "b"
    requires Strip(lines[pos + 2]) == NatToDigits(n)
    ensures Strip(lines[pos]) in PizzaData
    ensures var item := PizzaData[Strip(lines[pos])];
            Session(setting, lines, pos) ==
              [Placed(Box, item.name, item.price, n, setting, setting.clock(pos + 3))] +
              Session(setting, lines, pos + 3)
  {
    var key := Strip(lines[pos]);
    MenuVerdictCases(lines[pos]);
    MenuKeys(key);
    SessionAfterPick(setting, lines, pos, key);
    ChoiceVerdictCases(lines[pos + 1]);
    assert ReadOrderChoice(lines, pos + 1) == ChoiceRead(Some(ChoseBox), pos + 2);
    BoxQuantityUncapped(n, lines, pos + 2);
  }

  /** Picking a pizza, answering S, then giving a slice count n of at most
      16 saves one slice order of n of that pizza at its slice price, and
      the main menu reads the next line. */
  lemma CompletedSliceOrderSaved(setting: Setting, lines: seq<string>, pos: nat, n: nat)
    requires pos + 2 < |lines|
    requires IsMenuKey(Strip(lines[pos]))
    requires Strip(lines[pos + 1]) == "S" || Strip(lines[pos + 1]) == "s"
    requires n <= MaxSlices && Strip(lines[pos + 2]) == NatToDigits(n)
    ensures Strip(lines[pos]) in PizzaData
    ensures var item := PizzaData[Strip(lines[pos])];
            Session(setting, lines, pos) ==
              [Placed(Slice, item.name, setting.slicePrice(item.price), n, setting, setting.clock(pos + 3))] +
              Session(setting, lines, pos + 3)
  {
    var key := Strip(lines[pos]);
    MenuVerdictCases(lines[pos]);
    MenuKeys(key);
    SessionAfterPick(setting, lines, pos, key);
    ChoiceVerdictCases(lines[pos + 1]);
    assert ReadOrderChoice(lines, pos + 1) == ChoiceRead(Some(ChoseSlice), pos + 2);
    SliceQuantityAccepted(n, lines, pos + 2);
  }

  /** A slice count above 16 saves nothing for that answer: the order goes
      on exactly as if the line had not been typed. */
  lemma OverCapSliceSavesNothing(n: nat, pizzaName: string, unitPrice: real,
                                 setting: Setting, lines: seq<string>, pos: nat)
    requires n > MaxSlices
    requires pos < |lines| && Strip(lines[pos]) == NatToDigits(n)
    ensures OrderVisit(Slice, pizzaName, unitPrice, setting, lines, pos) ==
            OrderVisit(Slice, pizzaName, unitPrice, setting, lines, pos + 1)
  {
    SliceOverCapSkipped(n, lines, pos);
  }

  /** A quantity of "0", blanks around it or not, completes the order: a
      record of zero units and a zero total is saved. */
  lemma ZeroQuantityOrder(kind: OrderType, pizzaName: string, unitPrice: real,
                          setting: Setting, lines: seq<string>, pos: nat)
    requires pos < |lines| && Strip(lines[pos]) == "0"
    ensures var v := OrderVisit(kind, pizzaName, unitPrice, setting, lines, pos);
            v.saved.Some? && v.saved.value.quantity == 0 && v.saved.value.totalPrice == 0.0 &&
            v.next == pos + 1 && !v.halted
  {
    ZeroQuantityAccepted(kind, lines, pos);
  }

  /** A handler saves a record exactly when its quantity prompt yields a
      quantity, and the record is for that quantity of that pizza, of the
      handler's order type, stamped when the quantity was read. */
  lemma OrderVisitSavesAccepted(kind: OrderType, pizzaName: string, unitPrice: real,
                                setting: Setting, lines: seq<string>, pos: nat)
    requires pos <= |lines|
    ensures var read := ReadQuantity(kind, lines, pos);
            var v := OrderVisit(kind, pizzaName, unitPrice, setting, lines, pos);
            && (v.saved.Some? <==> read.outcome.Quantity?)
            && (v.saved.Some? ==>
                  && v.saved.value.quantity == read.outcome.n
                  && v.saved.value.orderType == kind
                  && v.saved.value.pizzaType == pizzaName
                  && v.saved.value.orderDatetime == setting.clock(read.next))
            && v.next == read.next
  {
  }

  /** Whatever a handler saves is charged by the policy for its pizza. */
  lemma OrderVisitCharged(kind: OrderType, item: MenuItem, unitPrice: real, setting: Setting,
                          lines: seq<string>, pos: nat)
    requires pos <= |lines|
    requires unitPrice == if kind == Box then item.price else setting.slicePrice(item.price)
    ensures var v := OrderVisit(kind, item.name, unitPrice, setting, lines, pos);
            v.saved.Some? ==> v.saved.value.orderType == kind && ChargedFor(v.saved.value, item, setting)
  {
    if kind == Slice {
      SliceQuantityCapped(lines, pos);
    }
  }

  /** Whatever a selection saves is charged for the picked menu item. */
  lemma SelectionVisitCharged(pizzaType: string, setting: Setting, lines: seq<string>, pos: nat)
    requires pos <= |lines|
    ensures var v := SelectionVisit(pizzaType, setting, lines, pos);
            v.saved.Some? ==>
              && pizzaType in PizzaData
              && ChargedFor(v.saved.value, PizzaData[pizzaType], setting)
              && (v.saved.value.orderType == Box <==> ReadOrderChoice(lines, pos).choice == Some(ChoseBox))
  {
    if pizzaType in PizzaData {
      var item := PizzaData[pizzaType];
      var read := ReadOrderChoice(lines, pos);
      match read.choice
      case Some(ChoseBox) =>
        OrderVisitCharged(Box, item, item.price, setting, lines, read.next);
      case Some(ChoseSlice) =>
        OrderVisitCharged(Slice, item, setting.slicePrice(item.price), setting, lines, read.next);
      case _ =>
    }
  }

  /** Every order a session saves is charged for one of the nine menu
      items by the discount policy and the payment calculator. */
  lemma {:induction false} SessionCharged(setting: Setting, lines: seq<string>, pos: nat)
    requires pos <= |lines|
    ensures forall r :: r in Session(setting, lines, pos) ==> ChargedFromMenu(r, setting)
    decreases |lines| - pos
  {
    if pos < |lines| {
      match MenuVerdict(lines[pos])
      case Quit =>
      case Invalid =>
        SessionCharged(setting, lines, pos + 1);
      case Pick(key) =>
        SessionAfterPick(setting, lines, pos, key);
        var v := SelectionVisit(key, setting, lines, pos + 1);
        SelectionVisitCharged(key, setting, lines, pos + 1);
        if !v.halted {
          SessionCharged(setting, lines, v.next);
        }
    }
  }

  /** Every order of the Pizza of the Day that a session saves is marked
      as discounted. */
  lemma SessionPizzaOfDayDiscounted(setting: Setting, lines: seq<string>)
    ensures forall r :: r in Session(setting, lines, 0) && r.pizzaType == setting.pizzaOfDay ==>
              r.discountApplied
  {
    SessionCharged(setting, lines, 0);
    forall r | r in Session(setting, lines, 0) && r.pizzaType == setting.pizzaOfDay
      ensures r.discountApplied
    {
      var key :| key in PizzaData && ChargedFor(r, PizzaData[key], setting);
      DiscountAppliedIff(r.orderType, r.quantity, true);
    }
  }
}
