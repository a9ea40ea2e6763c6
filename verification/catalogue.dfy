/** The catalogue page's derived views: the products matching the category
    and search filters, and the list of categories offered in the selector. */
module Catalogue {
  import opened Seqs
  import opened Text
  import opened ProductSlice

  /** The page's filter state; the empty string means "no constraint". */
  datatype Filters = Filters(category: string, search: string)

  const NoFilters := Filters("", "")

  predicate MatchesCategory(p: Product, f: Filters)
  {
    f.category == "" || p.category == f.category
  }

  /** Case-insensitive substring search over name and description. */
  predicate MatchesSearch(p: Product, f: Filters)
  {
    f.search == ""
    || Includes(ToLower(p.name), ToLower(f.search))
    || Includes(ToLower(p.description), ToLower(f.search))
  }

  function Matches(f: Filters): Product -> bool
  {
    (p: Product) => MatchesCategory(p, f) && MatchesSearch(p, f)
  }

  /** `filteredProducts`: the products passing both filters, in catalogue order. */
  function FilterProducts(products: seq<Product>, f: Filters): (r: seq<Product>)
    ensures Subseq(r, products)
    ensures forall p :: p in r <==> p in products && MatchesCategory(p, f) && MatchesSearch(p, f)
    ensures forall p {:trigger multiset(r)[p]} :: multiset(r)[p] == (if Matches(f)(p) then multiset(products)[p] else 0)
  {
    Filter(Matches(f), products)
  }

  /** With neither filter set, every product is shown. */
  lemma NoFiltersShowsAll(products: seq<Product>)
    ensures FilterProducts(products, NoFilters) == products
  {
    FilterKeepsAll(Matches(NoFilters), products);
  }

  /** A chosen category admits only products of exactly that category. */
  lemma CategoryIsExact(products: seq<Product>, f: Filters)
    requires f.category != ""
    ensures forall p :: p in FilterProducts(products, f) ==> p.category == f.category
  {
  }

  /** A non-empty search admits a product iff the lower-cased search occurs in
      its lower-cased name or description (category aside). */
  lemma SearchIsSubstring(products: seq<Product>, search: string, p: Product)
    requires search != "" && p in products
    ensures p in FilterProducts(products, Filters("", search)) <==>
      (exists i :: OccursAt(ToLower(p.name), ToLower(search), i))
      || (exists i :: OccursAt(ToLower(p.description), ToLower(search), i))
  {
  }

  /** The two filters combine by conjunction: filtering by both is filtering
      by category, then by search. */
  lemma FiltersCompose(products: seq<Product>, f: Filters)
    ensures FilterProducts(products, f)
      == FilterProducts(FilterProducts(products, Filters(f.category, "")), Filters("", f.search))
  {
    var c := Matches(Filters(f.category, ""));
    var q := Matches(Filters("", f.search));
    forall p: Product
      ensures Matches(f)(p) == (c(p) && q(p))
    {
      assert c(p) == MatchesCategory(p, f);
      assert q(p) == MatchesSearch(p, f);
    }
    FilterCompose(c, q, Matches(f), products);
  }

  /** Adding a constraint never shows more: the result with both filters is a
      subsequence of the result with either one cleared. */
  lemma NarrowingShrinks(products: seq<Product>, f: Filters)
    ensures Subseq(FilterProducts(products, f), FilterProducts(products, Filters("", f.search)))
    ensures Subseq(FilterProducts(products, f), FilterProducts(products, Filters(f.category, "")))
  {
    FilterMonotone(Matches(Filters("", f.search)), Matches(f), products);
    FilterMonotone(Matches(Filters(f.category, "")), Matches(f), products);
  }

  function CategoryOf(p: Product): string
  {
    p.category
  }

  /** `categories`: each product category once, in order of first appearance. */
  function Categories(products: seq<Product>): (r: seq<string>)
    ensures NoDuplicates(r)
    ensures forall c :: c in r <==> exists p :: p in products && p.category == c
    ensures forall i, j, k :: 0 <= i < j < |r| && 0 <= k < |products| && products[k].category == r[j] ==>
      exists m :: 0 <= m < k && products[m].category == r[i]
  {
    var cs := Map(CategoryOf, products);
    var r := Distinct(cs);
    assert forall c :: c in cs <==> exists p :: p in products && p.category == c by {
      forall c | c in cs
        ensures exists p :: p in products && p.category == c
      {
        var i :| 0 <= i < |cs| && cs[i] == c;
        assert products[i] in products;
      }
      forall c | exists p :: p in products && p.category == c
        ensures c in cs
      {
        var p :| p in products && p.category == c;
        var i :| 0 <= i < |products| && products[i] == p;
        assert cs[i] == c;
      }
    }
    forall i, j, k | 0 <= i < j < |r| && 0 <= k < |products| && products[k].category == r[j]
      ensures exists m :: 0 <= m < k && products[m].category == r[i]
    {
      FirstAppearance(products, cs, r, i, j, k);
    }
    r
  }

  lemma FirstAppearance(products: seq<Product>, cs: seq<string>, r: seq<string>, i: nat, j: nat, k: nat)
    requires cs == Map(CategoryOf, products) && r == Distinct(cs)
    requires i < j < |r| && k < |products| && products[k].category == r[j]
    ensures exists m :: 0 <= m < k && products[m].category == r[i]
  {
    assert cs[k] == r[j];
    assert r[i] in cs[..k];
    var m :| 0 <= m < k && cs[..k][m] == r[i];
    assert products[m].category == r[i];
  }
}
