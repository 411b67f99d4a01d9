/** The document `main` produces: `calculate` writes one page per served meal,
    then `addGeneralIngredientList` writes the shopping list on a last page.
    A page is kept abstract as its optional heading and its table text; the
    PDF drawing calls themselves are not part of this model. */
module Report {
  import opened Wrappers
  import opened Records
  import opened Units
  import opened Menu
  import opened Calculation
  import opened Layout

  /** One page: the meal name drawn above the table, if any, and the table. */
  datatype Page = Page(heading: Option<string>, body: string)

  /** The page `addMealIngredientList` draws for one section. */
  function MealPage(s: Section, fmt: real -> string): Page {
    Page(Some(s.title), Table(s.list.order, Values(s.list), fmt))
  }

  /** `addGeneralIngredientList`: the totals adjusted for display, then
      rendered under no heading. */
  function GeneralPage(totals: Record<real>, fmt: real -> string): Page {
    var shown := AdjustAll(totals);
    Page(None, Table(shown.order, Values(shown), fmt))
  }

  /** The pages for a finished calculation: the meal pages of its sections,
      in order, then the page of its totals. */
  function Pages(st: State, fmt: real -> string): (pages: seq<Page>)
    ensures |pages| == |st.sections| + 1
    ensures forall i :: 0 <= i < |st.sections| ==> pages[i] == MealPage(st.sections[i], fmt)
    ensures pages[|st.sections|] == GeneralPage(st.totals, fmt)
  {
    seq(|st.sections|, i requires 0 <= i < |st.sections| => MealPage(st.sections[i], fmt)) + [GeneralPage(st.totals, fmt)]
  }

  /** `calculate` followed by `addGeneralIngredientList`. The document exists
      exactly when every served meal can be cooked; it then has one page per
      served meal and a last page without heading. Otherwise the error is the
      one of the first served meal that cannot be cooked. */
  function Document(data: Data, participants: int, menu: Record<int>, fmt: real -> string): (r: Result<seq<Page>, Error>)
    ensures r.Success? <==> forall m :: m in menu.vals && menu.vals[m] != 0 ==> Cookable(data, m)
    ensures r.Success? ==> |r.value| == |Included(menu.vals, menu.order)| + 1
    ensures r.Success? ==> r.value[|r.value| - 1].heading == None
    ensures r.Failure? ==>
              exists i :: FirstBad(data, menu.vals, menu.order, i) &&
                r.error == MealList(data, participants, menu.order[i], Count(menu.vals, menu.order[i])).error
  {
    match Calculate(data, participants, menu)
    case Failure(e) => Failure(e)
    case Success(st) => Success(Pages(st, fmt))
  }

  /** A successful document is the pages of the calculation it comes from. */
  lemma DocumentPages(data: Data, participants: int, menu: Record<int>, fmt: real -> string)
    requires Calculate(data, participants, menu).Success?
    ensures Document(data, participants, menu, fmt) == Success(Pages(Calculate(data, participants, menu).value, fmt))
  {
  }

  /** The meal pages of a document are headed by the served meals, in plan
      order. */
  lemma DocumentHeadings(data: Data, participants: int, menu: Record<int>, fmt: real -> string)
    requires Document(data, participants, menu, fmt).Success?
    ensures var pages := Document(data, participants, menu, fmt).value;
            forall i :: 0 <= i < |pages| - 1 ==> pages[i].heading == Some(Included(menu.vals, menu.order)[i])
  {
    DocumentPages(data, participants, menu, fmt);
    var st := Calculate(data, participants, menu).value;
    forall i | 0 <= i < |st.sections| ensures st.sections[i].title == Included(menu.vals, menu.order)[i] {
    }
  }

  /** The meal has a recipe, and each of its ingredient names and each
      quantity its page shows, once formatted, fits its column. */
  predicate MealFits(data: Data, participants: int, meal: string, fmt: real -> string) {
    && meal in data.recipes
    && forall k :: k in data.recipes[meal].ingredients.vals ==>
         |k| <= Width && |fmt(Portion(data, participants, data.recipes[meal], k))| <= Width
  }

  /** A record whose keys and formatted values fit renders as one line per
      key, in key order, each showing the key and its formatted value. */
  lemma RecordLines(r: Record<real>, fmt: real -> string)
    requires forall j :: 0 <= j < |r.order| ==> |r.order[j]| <= Width && |fmt(r.vals[r.order[j]])| <= Width
    ensures |Table(r.order, Values(r), fmt)| == LineLength * |r.order|
    ensures forall j :: 0 <= j < |r.order| ==>
              HasLine(Table(r.order, Values(r), fmt), j, Row(r.order[j], fmt(r.vals[r.order[j]])))
  {
    var vs := Values(r);
    forall j | 0 <= j < |r.order| ensures |r.order[j]| <= Width && |fmt(vs[j])| <= Width {
      assert vs[j] == r.vals[r.order[j]];
    }
    TableLength(r.order, vs, fmt);
    TableLines(r.order, vs, fmt);
  }

  /** When its names and quantities fit, the page of a meal's own list has
      one line per ingredient in recipe order, each showing the quantity for
      all participants. */
  lemma SectionPageLines(data: Data, participants: int, meal: string, count: int, list: Record<real>, fmt: real -> string)
    requires MealList(data, participants, meal, count) == Success(list)
    requires MealFits(data, participants, meal, fmt)
    ensures var recipe := data.recipes[meal];
            var body := MealPage(Section(meal, list), fmt).body;
            && |body| == LineLength * |recipe.ingredients.order|
            && forall j :: 0 <= j < |recipe.ingredients.order| ==>
                 HasLine(body, j, Row(recipe.ingredients.order[j],
                                      fmt(Portion(data, participants, recipe, recipe.ingredients.order[j]))))
  {
    var recipe := data.recipes[meal];
    forall j | 0 <= j < |list.order|
      ensures list.vals[list.order[j]] == Portion(data, participants, recipe, list.order[j])
    {
      assert Get0(list, list.order[j]) == Portion(data, participants, recipe, list.order[j]);
    }
    forall j | 0 <= j < |list.order| ensures |list.order[j]| <= Width && |fmt(list.vals[list.order[j]])| <= Width {
      assert list.order[j] in recipe.ingredients.vals;
    }
    RecordLines(list, fmt);
  }

  /** When that meal's names and quantities fit, page `i` of the document
      lists the recipe of the `i`-th served meal, one line per ingredient in
      recipe order, each showing the quantity for all participants but not
      multiplied by the meal's count. */
  lemma MealPageLines(data: Data, participants: int, menu: Record<int>, fmt: real -> string, i: nat)
    requires Document(data, participants, menu, fmt).Success?
    requires i < |Included(menu.vals, menu.order)|
    requires MealFits(data, participants, Included(menu.vals, menu.order)[i], fmt)
    ensures var meal := Included(menu.vals, menu.order)[i];
            var recipe := data.recipes[meal];
            var body := Document(data, participants, menu, fmt).value[i].body;
            && |body| == LineLength * |recipe.ingredients.order|
            && forall j :: 0 <= j < |recipe.ingredients.order| ==>
                 HasLine(body, j, Row(recipe.ingredients.order[j],
                                      fmt(Portion(data, participants, recipe, recipe.ingredients.order[j]))))
  {
    DocumentPages(data, participants, menu, fmt);
    var s := Calculate(data, participants, menu).value.sections[i];
    SectionPageLines(data, participants, s.title, Count(menu.vals, s.title), s.list, fmt);
  }

  /** When every ingredient name and displayed total fits, the last page
      lists every ingredient some served meal uses, in the order of first use,
      each showing its display-adjusted total: the sum over served meals,
      multiplied by 1000 when it reaches 1000 and by 0.001 when it is below 1. */
  lemma ShoppingListLines(data: Data, participants: int, menu: Record<int>, fmt: real -> string)
    requires Document(data, participants, menu, fmt).Success?
    requires forall k :: Mentioned(data, menu.vals, menu.order, k) ==>
               |k| <= Width && |fmt(Adjust(Expected(data, participants, menu.vals, menu.order, k)))| <= Width
    ensures var keys := Calculate(data, participants, menu).value.totals.order;
            var pages := Document(data, participants, menu, fmt).value;
            var body := pages[|pages| - 1].body;
            && keys == FirstUse(data, menu.vals, menu.order, [])
            && (forall k :: k in keys <==> Mentioned(data, menu.vals, menu.order, k))
            && |body| == LineLength * |keys|
            && forall j :: 0 <= j < |keys| ==>
                 HasLine(body, j, Row(keys[j], fmt(Adjust(Expected(data, participants, menu.vals, menu.order, keys[j])))))
  {
    var st := Calculate(data, participants, menu).value;
    DocumentPages(data, participants, menu, fmt);
    forall j | 0 <= j < |st.totals.order|
      ensures |st.totals.order[j]| <= Width && |fmt(Adjust(Get0(st.totals, st.totals.order[j])))| <= Width
    {
      var k := st.totals.order[j];
      assert Mentioned(data, menu.vals, menu.order, k);
    }
    GeneralPageLines(st.totals, fmt);
  }

  /** When every key and displayed total fits, the page of the totals has one
      line per key, in key order, each showing the display-adjusted total. */
  lemma GeneralPageLines(totals: Record<real>, fmt: real -> string)
    requires forall j :: 0 <= j < |totals.order| ==>
               |totals.order[j]| <= Width && |fmt(Adjust(Get0(totals, totals.order[j])))| <= Width
    ensures var body := GeneralPage(totals, fmt).body;
            && |body| == LineLength * |totals.order|
            && forall j :: 0 <= j < |totals.order| ==>
                 HasLine(body, j, Row(totals.order[j], fmt(Adjust(Get0(totals, totals.order[j])))))
  {
    var shown := AdjustAll(totals);
    forall j | 0 <= j < |shown.order|
      ensures shown.vals[shown.order[j]] == Adjust(Get0(totals, shown.order[j]))
    {
    }
    RecordLines(shown, fmt);
  }

  /** A concrete plan: cake served twice, 0.5 kg of flour per person, 10
      participants. */
  const FlourData: Data := Data(map["flour" := Ingredient("kg")],
                                map["cake" := Recipe(Rec(["flour"], map["flour" := 0.5]))])
  const FlourMenu: Record<int> := Rec(["cake"], map["cake" := 2])

  /** The plan calls for 10000 g of flour. */
  lemma FlourExpected()
    ensures Expected(FlourData, 10, FlourMenu.vals, FlourMenu.order, "flour") == 10000.0
  {
    var recipe := FlourData.recipes["cake"];
    assert Resolves(FlourData, "flour");
    assert Canonical(FlourData, "flour", 0.5) == 500.0;
    ScaleIsProduct(500.0, 10);
    assert Portion(FlourData, 10, recipe, "flour") == 5000.0;
    ScaleIsProduct(5000.0, 2);
    assert Share(FlourData, 10, recipe, 2, "flour") == 10000.0;
    assert FlourMenu.order[1..] == [];
  }

  /** The shopping list of the flour plan holds 10000 g of flour, and its
      last page shows 10000000 rather than 10, because the display
      adjustment multiplies large totals by 1000. */
  lemma FlourScenario()
    ensures Calculate(FlourData, 10, FlourMenu).Success?
    ensures Get0(Calculate(FlourData, 10, FlourMenu).value.totals, "flour") == 10000.0
    ensures Adjust(Get0(Calculate(FlourData, 10, FlourMenu).value.totals, "flour")) == 10000000.0
  {
    assert Resolves(FlourData, "flour");
    assert Cookable(FlourData, "cake");
    FlourExpected();
  }

  /** When the two numbers fit their column, the flour plan gives two pages:
      the cake page, whose flour line shows 5000 (for all participants, not
      multiplied by the count), and the shopping list, whose flour line shows
      10000000. */
  lemma FlourPages(fmt: real -> string)
    requires |fmt(5000.0)| <= Width && |fmt(10000000.0)| <= Width
    ensures Document(FlourData, 10, FlourMenu, fmt).Success?
    ensures var pages := Document(FlourData, 10, FlourMenu, fmt).value;
            && |pages| == 2
            && pages[0].heading == Some("cake")
            && HasLine(pages[0].body, 0, Row("flour", fmt(5000.0)))
            && pages[1].heading == None
            && HasLine(pages[1].body, 0, Row("flour", fmt(10000000.0)))
  {
    FlourScenario();
    var recipe := FlourData.recipes["cake"];
    assert Resolves(FlourData, "flour");
    assert Canonical(FlourData, "flour", 0.5) == 500.0;
    ScaleIsProduct(500.0, 10);
    assert Portion(FlourData, 10, recipe, "flour") == 5000.0;
    assert Included(FlourMenu.vals, FlourMenu.order) == ["cake"];
    assert MealFits(FlourData, 10, "cake", fmt);
    MealPageLines(FlourData, 10, FlourMenu, fmt, 0);
    var st := Calculate(FlourData, 10, FlourMenu).value;
    assert Fresh(["flour"], []) == ["flour"];
    assert FirstUse(FlourData, FlourMenu.vals, FlourMenu.order, []) == ["flour"];
    assert st.totals.order == ["flour"];
    GeneralPageLines(st.totals, fmt);
    DocumentPages(FlourData, 10, FlourMenu, fmt);
  }
}
