/** The fixed menu of nine pizzas, keyed "1" to "9". */
module Menu {
  import opened Wrappers

  datatype MenuItem = MenuItem(name: string, price: real)

  const PizzaData: map<string, MenuItem> := map[
    "1" := MenuItem("Classic", 3.4),
    "2" := MenuItem("Chicken", 4.5),
    "3" := MenuItem("Pepperoni", 4.0),
    "4" := MenuItem("Deluxe", 6.0),
    "5" := MenuItem("Vegetable", 4.0),
    "6" := MenuItem("Chocolate", 12.0),
    "7" := MenuItem("Cheese", 5.0),
    "8" := MenuItem("Hawaiian", 7.0),
    "9" := MenuItem("Greek", 8.0)
  ]

  /** A single digit from 1 to 9. */
  predicate IsMenuKey(key: string) {
    |key| == 1 && '1' <= key[0] <= '9'
  }

  /** The keys of the menu are exactly the digits 1 to 9. */
  lemma MenuKeys(key: string)
    ensures key in PizzaData <==> IsMenuKey(key)
  {
    if IsMenuKey(key) {
      assert key == [key[0]];
      var c := key[0] as int;
      assert 49 <= c <= 57;
      if c == 49 { assert key == "1"; }
      else if c == 50 { assert key == "2"; }
      else if c == 51 { assert key == "3"; }
      else if c == 52 { assert key == "4"; }
      else if c == 53 { assert key == "5"; }
      else if c == 54 { assert key == "6"; }
      else if c == 55 { assert key == "7"; }
      else if c == 56 { assert key == "8"; }
      else { assert key == "9"; }
    }
  }

  /** Looking a key up finds an item, with a positive box price, exactly
      for the keys 1 to 9, and the item found is the menu's entry for it. */
  function Lookup(key: string): (r: Option<MenuItem>)
    ensures r.Some? <==> IsMenuKey(key)
    ensures r.Some? ==> key in PizzaData && r.value == PizzaData[key]
    ensures r.Some? ==> r.value.price > 0.0
  {
    MenuKeys(key);
    if key in PizzaData then Some(PizzaData[key]) else None
  }

  /** No two menu entries share a name, so comparing names (as the kiosk
      does for the Pizza of the Day) singles out one entry. */
  lemma NamesDistinct(k1: string, k2: string)
    requires k1 in PizzaData && k2 in PizzaData
    requires PizzaData[k1].name == PizzaData[k2].name
    ensures k1 == k2
  {
  }
}
