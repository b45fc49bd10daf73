/**
  A session driven the way the page drives it, over the sample tables.
 */
module SampleSession {

  import opened Tables
  import opened ServingsInput
  import opened Planning
  import opened SampleData

  /** The servings box reads "200" as 200 servings. */
  lemma TwoHundredTyped()
    ensures ParseServings("200") == 200
  {
    assert Decimal(200) == "200";
    ParseServingsDecimal(200, "");
    assert "200" + "" == "200";
  }

  /**
    A fresh session in which the user adds `dish` from the dropdown and then
    types `text` into its servings box.
   */
  method OpenWithServings(recipes: Recipes, stock: Stock, dish: Dish, text: string)
    returns (s: PlanningSession)
    requires dish in recipes && dish != "" && ParseServings(text) > 0
    ensures fresh(s) && s.Valid()
    ensures s.recipes == recipes && s.stock == stock
    ensures s.selection == map[dish := ParseServings(text)]
  {
    s := new PlanningSession(recipes, stock);
    s.AddDishFromDropdown(dish);
    assert s.selection == map[dish := 1];
    s.EnterServings(dish, text);
  }

  /**
    Adding Biriyani from the dropdown, typing "200" as its servings and then
    pressing minus once leaves 199 servings.
   */
  method BiriyaniMinusOne() returns (servings: int)
    ensures servings == 199
  {
    TwoHundredTyped();
    var s := OpenWithServings(DISHES, CURRENT_STOCK, "Biriyani", "200");
    s.Decrement("Biriyani");
    servings := s.selection["Biriyani"];
  }
}
