/**
  The home page (src/pages/Home.jsx): the category list offered in the
  select box, the search-and-category filter over the catalog, and the
  action dispatched by a product card's "Add to Cart" button.
 */
module Home {
  import opened Store
  import opened Text
  import opened Seqs

  /** The select box's sentinel meaning "every category". */
  const AllCategories: string := "all"

  /** `products.map((product) => product.category)`. */
  function CategoriesOf(products: seq<Product>): (cs: seq<string>)
    ensures |cs| == |products|
    ensures forall i :: 0 <= i < |products| ==> cs[i] == products[i].category
  {
    if |products| == 0 then [] else [products[0].category] + CategoriesOf(products[1..])
  }

  /**
    `["all", ...new Set(products.map(p => p.category))]`: the sentinel, then
    every catalog category once, in order of first appearance.
   */
  function Categories(products: seq<Product>): (r: seq<string>)
    ensures |r| >= 1 && r[0] == AllCategories
    ensures forall i :: 0 <= i < |products| ==> products[i].category in r[1..]
    ensures forall i :: 1 <= i < |r| ==> r[i] in CategoriesOf(products)
    ensures NoDuplicates(r[1..])
    ensures FirstOccurrenceOrder(CategoriesOf(products), r[1..])
  {
    var cs := CategoriesOf(products);
    var distinct := Dedup(cs);
    DedupFirstOccurrenceOrder(cs);
    var r := [AllCategories] + distinct;
    assert r[1..] == distinct;
    r
  }

  /**
    Reference meaning of the search: the lowered term occurs at some position
    of the lowered title or at some position of the lowered description.
   */
  ghost predicate OccursInTitleOrDescription(p: Product, searchTerm: string) {
    || (exists i :: OccursAt(Lower(p.title), Lower(searchTerm), i))
    || (exists i :: OccursAt(Lower(p.description), Lower(searchTerm), i))
  }

  /** Case-insensitive search with `includes` on the lowered title and description. */
  predicate MatchesSearch(p: Product, searchTerm: string): (b: bool)
    ensures b <==> OccursInTitleOrDescription(p, searchTerm)
  {
    ContainsIffOccurs(Lower(p.title), Lower(searchTerm));
    ContainsIffOccurs(Lower(p.description), Lower(searchTerm));
    || Contains(Lower(p.title), Lower(searchTerm))
    || Contains(Lower(p.description), Lower(searchTerm))
  }

  /** Category match: the sentinel matches everything, otherwise exact equality. */
  predicate MatchesCategory(p: Product, selectedCategory: string): (b: bool)
    ensures selectedCategory == AllCategories ==> b
    ensures selectedCategory != AllCategories ==> (b <==> p.category == selectedCategory)
  {
    selectedCategory == AllCategories || p.category == selectedCategory
  }

  /** The `filter` callback: both the search and the category must match. */
  predicate Shown(p: Product, searchTerm: string, selectedCategory: string): (b: bool)
    ensures b <==>
      && OccursInTitleOrDescription(p, searchTerm)
      && (selectedCategory == AllCategories || p.category == selectedCategory)
  {
    MatchesSearch(p, searchTerm) && MatchesCategory(p, selectedCategory)
  }

  /** `products.filter(...)`: the products shown, in catalog order. */
  function FilterProducts(products: seq<Product>, searchTerm: string, selectedCategory: string): (r: seq<Product>)
    ensures forall p :: p in r <==> p in products && Shown(p, searchTerm, selectedCategory)
    ensures forall p :: multiset(r)[p] == if Shown(p, searchTerm, selectedCategory) then multiset(products)[p] else 0
    ensures IsSubsequence(r, products)
    ensures selectedCategory != AllCategories ==> forall p :: p in r ==> p.category == selectedCategory
  {
    if |products| == 0 then []
    else
      var rest := FilterProducts(products[1..], searchTerm, selectedCategory);
      assert products == [products[0]] + products[1..];
      if Shown(products[0], searchTerm, selectedCategory) then [products[0]] + rest else rest
  }

  /** Filtering never introduces duplicates. */
  lemma {:induction false} FilterKeepsNoDuplicates(products: seq<Product>, searchTerm: string, selectedCategory: string)
    requires NoDuplicates(products)
    ensures NoDuplicates(FilterProducts(products, searchTerm, selectedCategory))
  {
    if |products| > 0 {
      var head := products[0];
      var tail := products[1..];
      assert NoDuplicates(tail);
      FilterKeepsNoDuplicates(tail, searchTerm, selectedCategory);
      var rest := FilterProducts(tail, searchTerm, selectedCategory);
      if Shown(head, searchTerm, selectedCategory) {
        assert head !in tail;
        assert head !in rest;
        PrependKeepsNoDuplicates(head, rest);
      }
    }
  }

  /** With an empty search term and the sentinel category, the whole catalog is shown unchanged. */
  lemma {:induction false} UnfilteredCatalog(products: seq<Product>)
    ensures FilterProducts(products, "", AllCategories) == products
  {
    if |products| > 0 {
      assert Lower("") == "";
      ContainsEmpty(Lower(products[0].title));
      UnfilteredCatalog(products[1..]);
      assert products == [products[0]] + products[1..];
    }
  }

  /** A term occurring verbatim in the title is found whatever its case. */
  lemma VerbatimTitleMatches(p: Product, searchTerm: string)
    requires Contains(p.title, searchTerm)
    ensures MatchesSearch(p, searchTerm)
  {
    ContainsLowered(p.title, searchTerm);
  }

  /** A term occurring verbatim in the description is found whatever its case. */
  lemma VerbatimDescriptionMatches(p: Product, searchTerm: string)
    requires Contains(p.description, searchTerm)
    ensures MatchesSearch(p, searchTerm)
  {
    ContainsLowered(p.description, searchTerm);
  }

  /**
    The categories after the sentinel are exactly the list of distinct catalog
    categories in first-occurrence order: any list with those properties is it.
   */
  lemma CategoriesCharacterised(products: seq<Product>, d: seq<string>)
    requires forall c :: c in d <==> c in CategoriesOf(products)
    requires NoDuplicates(d)
    requires FirstOccurrenceOrder(CategoriesOf(products), d)
    ensures Categories(products) == [AllCategories] + d
  {
    DedupUnique(CategoriesOf(products), d);
  }

  /**
    The sentinel is prepended outside the set, so a catalog category that is
    literally "all" is listed a second time.
   */
  lemma SentinelListedTwice(products: seq<Product>, p: Product)
    requires p in products && p.category == AllCategories
    ensures multiset(Categories(products))[AllCategories] == 2
  {
    var r := Categories(products);
    var tail := r[1..];
    assert r == [AllCategories] + tail;
    assert AllCategories in tail;
    NoDuplicatesCountAtMostOne(tail, AllCategories);
  }

  lemma ShirtMatchesShirt(shirt: Product)
    requires shirt.title == "Red Shirt"
    ensures MatchesSearch(shirt, "SHIRT")
  {
    var term := Lower("SHIRT");
    assert term == "shirt";
    var title := Lower(shirt.title);
    assert title == "red shirt";
    OccurrenceFound(title, term, 4);
  }

  lemma MugMissesShirt(mug: Product)
    requires mug.title == "Blue Mug" && mug.description == "ceramic"
    ensures !MatchesSearch(mug, "SHIRT")
  {
    var term := Lower("SHIRT");
    assert term == "shirt";
    var title := Lower(mug.title);
    assert title == "blue mug";
    var description := Lower(mug.description);
    assert description == "ceramic";
    AbsentFirstChar(title, term);
    AbsentFirstChar(description, term);
  }

  /** Searching a two-product catalog for "SHIRT" finds only the shirt, whatever the case. */
  lemma SearchExample(shirt: Product, mug: Product)
    requires shirt.title == "Red Shirt" && mug.title == "Blue Mug" && mug.description == "ceramic"
    ensures FilterProducts([shirt, mug], "SHIRT", AllCategories) == [shirt]
  {
    ShirtMatchesShirt(shirt);
    MugMissesShirt(mug);
    assert [shirt, mug][1..] == [mug];
    assert [mug][1..] == [];
  }

  /** Picking a category with an empty search term keeps exactly that category. */
  lemma CategoryExample(shirt: Product, mug: Product)
    requires shirt.category == "clothing" && mug.category == "home"
    ensures FilterProducts([shirt, mug], "", "home") == [mug]
  {
    assert Lower("") == "";
    ContainsEmpty(Lower(mug.title));
    assert [shirt, mug][1..] == [mug];
  }

  /** The category list of a catalog with two distinct categories. */
  lemma CategoryListExample(shirt: Product, mug: Product)
    requires shirt.category == "clothing" && mug.category == "home"
    ensures Categories([shirt, mug]) == [AllCategories, "clothing", "home"]
  {
    assert CategoriesOf([shirt, mug]) == ["clothing", "home"];
    assert ["clothing", "home"][..1] == ["clothing"];
    assert ["clothing"][..0] == [];
  }

  /**
    The search term is not trimmed: a term of one space does not match a
    product whose title and description contain no space.
   */
  lemma BlankTermDoesNotMatchEverything(p: Product)
    requires ' ' !in p.title && ' ' !in p.description
    ensures !MatchesSearch(p, " ")
  {
    var term := Lower(" ");
    assert term == " ";
    var title := Lower(p.title);
    var description := Lower(p.description);
    assert ' ' !in title by {
      forall i | 0 <= i < |title| ensures title[i] != ' ' {
        assert p.title[i] != ' ';
      }
    }
    assert ' ' !in description by {
      forall i | 0 <= i < |description| ensures description[i] != ' ' {
        assert p.description[i] != ' ';
      }
    }
    AbsentFirstChar(title, term);
    AbsentFirstChar(description, term);
  }

  /** `{ ...product, quantity: 1 }` dispatched by a card's "Add to Cart" button. */
  function HandleAddToCart(product: Product): (a: Action)
    ensures a.AddToCart? && ProductOf(a.item) == product && a.item.quantity == 1
  {
    AddToCart(WithQuantity(product, 1))
  }
}
