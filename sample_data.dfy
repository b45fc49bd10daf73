/**
  The sample recipe and stock tables the component starts with (lines 6-72),
  and what the model computes for a few selections of them.
 */
module SampleData {

  import opened Tables
  import opened Requirements
  import opened Shortages

  /** Biriyani, in kg of each material per serving. */
  const BIRIYANI: map<Material, real> :=
    map["Basmati Rice" := 0.2, "Chicken" := 0.15, "Onions" := 0.05,
        "Spices Mix" := 0.01, "Ghee" := 0.02, "Yogurt" := 0.03]

  /** The six dishes, in kg of each material per serving. */
  const DISHES: Recipes := map[
    "Biriyani" := BIRIYANI,
    "Fish Curry" := map["Fish" := 0.12, "Coconut" := 0.1, "Onions" := 0.04,
                        "Tomatoes" := 0.03, "Spices Mix" := 0.008, "Coconut Oil" := 0.01],
    "Sambar" := map["Toor Dal" := 0.05, "Vegetables" := 0.08, "Tamarind" := 0.005,
                    "Spices Mix" := 0.005, "Curry Leaves" := 0.002],
    "Rasam" := map["Toor Dal" := 0.03, "Tomatoes" := 0.04, "Tamarind" := 0.008,
                   "Rasam Powder" := 0.003, "Curry Leaves" := 0.002],
    "Appam" := map["Rice Flour" := 0.08, "Coconut Milk" := 0.05, "Yeast" := 0.001,
                   "Sugar" := 0.005],
    "Puttu" := map["Rice Flour" := 0.1, "Coconut" := 0.03, "Salt" := 0.001]
  ]

  /** The sample stock, in kg. */
  const CURRENT_STOCK: Stock := map[
    "Basmati Rice" := 50.0, "Chicken" := 25.0, "Fish" := 15.0, "Onions" := 30.0,
    "Tomatoes" := 20.0, "Coconut" := 40.0, "Spices Mix" := 5.0, "Ghee" := 10.0,
    "Yogurt" := 12.0, "Coconut Oil" := 8.0, "Toor Dal" := 15.0, "Vegetables" := 25.0,
    "Tamarind" := 3.0, "Curry Leaves" := 2.0, "Rasam Powder" := 1.5, "Rice Flour" := 20.0,
    "Coconut Milk" := 10.0, "Yeast" := 0.5, "Sugar" := 15.0, "Salt" := 5.0
  ]

  /** The recipe table lists Biriyani with the recipe above. */
  lemma BiriyaniInDishes()
    ensures "Biriyani" in DISHES && DISHES["Biriyani"] == BIRIYANI
  {
  }

  /** The requirement table of Biriyani for 200 servings is its recipe times 200. */
  lemma BiriyaniRequirement(sel: Selection, recipes: Recipes)
    requires sel == map["Biriyani" := 200]
    requires "Biriyani" in recipes && recipes["Biriyani"] == BIRIYANI
    ensures Requirement(sel, recipes)
         == map["Basmati Rice" := 40.0, "Chicken" := 30.0, "Onions" := 10.0,
                "Spices Mix" := 2.0, "Ghee" := 4.0, "Yogurt" := 6.0]
  {
    RequirementOfOneDish("Biriyani", 200, recipes);
    var req := Requirement(sel, recipes);
    assert req.Keys == {"Basmati Rice", "Chicken", "Onions", "Spices Mix", "Ghee", "Yogurt"};
  }

  /** What the sample stock holds of the six Biriyani materials. */
  lemma BiriyaniMaterialsInStock()
    ensures ValueOrZero(CURRENT_STOCK, "Basmati Rice") == 50.0
    ensures ValueOrZero(CURRENT_STOCK, "Chicken") == 25.0
    ensures ValueOrZero(CURRENT_STOCK, "Onions") == 30.0
    ensures ValueOrZero(CURRENT_STOCK, "Spices Mix") == 5.0
    ensures ValueOrZero(CURRENT_STOCK, "Ghee") == 10.0
    ensures ValueOrZero(CURRENT_STOCK, "Yogurt") == 12.0
  {
  }

  /**
    Against stock holding what the sample stock holds of these six materials,
    only chicken falls short of that table, by 5 kg.
   */
  lemma BiriyaniShortage(req: Quantities, stock: Stock, sc: Quantities)
    requires req == map["Basmati Rice" := 40.0, "Chicken" := 30.0, "Onions" := 10.0,
                "Spices Mix" := 2.0, "Ghee" := 4.0, "Yogurt" := 6.0]
    requires ValueOrZero(stock, "Basmati Rice") == 50.0 && ValueOrZero(stock, "Chicken") == 25.0
    requires ValueOrZero(stock, "Onions") == 30.0 && ValueOrZero(stock, "Spices Mix") == 5.0
    requires ValueOrZero(stock, "Ghee") == 10.0 && ValueOrZero(stock, "Yogurt") == 12.0
    requires IsShortageOf(sc, req, stock)
    ensures sc == map["Chicken" := 5.0]
    ensures AvailableInStock(req, sc) == 5
  {
    assert "Chicken" in sc && sc["Chicken"] == 5.0;
    assert "Basmati Rice" !in sc && "Onions" !in sc && "Spices Mix" !in sc;
    assert "Ghee" !in sc && "Yogurt" !in sc;
    assert req.Keys == {"Basmati Rice", "Chicken", "Onions", "Spices Mix", "Ghee", "Yogurt"};
    assert sc.Keys <= req.Keys;
    assert sc.Keys == {"Chicken"};
    assert |sc| == 1;
    assert |req.Keys| == 6;
  }

  /**
    Biriyani for 200: 30 kg of chicken against 25 in stock, so chicken is the
    one material to buy, 5 kg of it; the five other materials are covered.
   */
  lemma BiriyaniForTwoHundred(sel: Selection, req: Quantities, sc: Quantities)
    requires sel == map["Biriyani" := 200]
    requires req == Requirement(sel, DISHES)
    requires IsShortageOf(sc, req, CURRENT_STOCK)
    ensures sc == map["Chicken" := 5.0]
    ensures AvailableInStock(req, sc) == 5
  {
    BiriyaniInDishes();
    BiriyaniRequirement(sel, DISHES);
    BiriyaniMaterialsInStock();
    BiriyaniShortage(req, CURRENT_STOCK, sc);
  }
}
