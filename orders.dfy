/**
 * The order log, at the level of the list of records it holds. The file
 * is missing, holds text that does not parse, or parses to a list of
 * records; saving an order rewrites it as the loaded list plus the order.
 */
module Orders {
  import opened Pricing

  /** The order_datetime text; the clock that produces it is outside the model. */
  type Timestamp = string

  datatype OrderRecord = OrderRecord(
    orderDatetime: Timestamp,
    pizzaType: string,
    orderType: OrderType,
    quantity: nat,
    totalPrice: real,
    discountApplied: bool)

  /** The log file as the next save finds it: absent, UTF-8 text that is
      not valid JSON, or a JSON list of records. */
  datatype LogFile = Missing | Corrupt | Parsed(records: seq<OrderRecord>)

  /** What loading the log yields before the append: the parsed records,
      or nothing when the file is missing or does not parse. */
  function Loaded(file: LogFile): seq<OrderRecord> {
    match file
    case Parsed(records) => records
    case _ => []
  }

  /** The list written back by one save: everything that loaded, in the
      same order, followed by the new order. */
  function Appended(file: LogFile, order: OrderRecord): (r: seq<OrderRecord>)
    ensures r == Loaded(file) + [order]
    ensures |r| == |Loaded(file)| + 1
  {
    match file
    case Parsed(records) => records + [order]
    case _ => [order]
  }

  /** The log file after saving each of orders in turn. Saving nothing
      leaves the file as it was (a corrupt file stays corrupt); saving at
      least one order leaves a parsed file holding the records that loaded
      at the start followed by all the new orders, in order. */
  function Saved(file: LogFile, orders: seq<OrderRecord>): (r: LogFile)
    ensures orders == [] ==> r == file
    ensures orders != [] ==> r == Parsed(Loaded(file) + orders)
    decreases |orders|
  {
    if orders == [] then file
    else
      var first := Parsed(Appended(file, orders[0]));
      assert orders == [orders[0]] + orders[1..];
      assert Loaded(first) + orders[1..] == Loaded(file) + orders;
      Saved(first, orders[1..])
  }

  /** Saving a then b is saving a + b. */
  lemma SavedConcat(file: LogFile, a: seq<OrderRecord>, b: seq<OrderRecord>)
    ensures Saved(Saved(file, a), b) == Saved(file, a + b)
  {
    if a != [] && b != [] {
      assert Loaded(file) + a + b == Loaded(file) + (a + b);
    }
  }

  /** A log that parses keeps its records, in order, and grows by one. */
  lemma SaveToParsedLog(records: seq<OrderRecord>, order: OrderRecord)
    ensures Appended(Parsed(records), order) == records + [order]
    ensures |Appended(Parsed(records), order)| == |records| + 1
  {
  }

  /** A corrupt or missing log is replaced by the new order alone. */
  lemma SaveToUnreadableLog(file: LogFile, order: OrderRecord)
    requires file == Corrupt || file == Missing
    ensures Appended(file, order) == [order]
  {
  }

  /** Two orders saved one after the other, starting from no log or from
      a corrupt log, leave exactly those two, in insertion order. */
  lemma TwoSavesFromScratch(file: LogFile, first: OrderRecord, second: OrderRecord)
    requires file == Corrupt || file == Missing
    ensures Saved(file, [first, second]) == Parsed([first, second])
  {
  }

  /** The log file, whose content the kiosk reloads and rewrites on every
      completed order. */
  class OrderLog {
    var file: LogFile

    constructor (initial: LogFile)
      ensures file == initial
    {
      file := initial;
    }

    /** save_order_to_json: build the record, load the list (an empty one
        if the file does not parse), append, write the whole list back;
        with no file, write a one-record list. */
    method SaveOrder(stamp: Timestamp, pizzaType: string, orderType: OrderType,
                     quantity: nat, price: real, discount: bool)
      modifies this
      ensures file == Parsed(Appended(old(file),
                OrderRecord(stamp, pizzaType, orderType, quantity, price, discount)))
      ensures file == Saved(old(file),
                [OrderRecord(stamp, pizzaType, orderType, quantity, price, discount)])
    {
      var order := OrderRecord(stamp, pizzaType, orderType, quantity, price, discount);
      if !file.Missing? {
        var data: seq<OrderRecord>;
        if file.Parsed? {
          data := file.records;
        } else {
          data := [];
        }
        data := data + [order];
        file := Parsed(data);
      } else {
        file := Parsed([order]);
      }
    }
  }
}
