/** The `products` slice of the Redux store: the catalogue, its derived
    "featured" sublist, a loading flag, an error message and the product
    shown on the detail page, with the slice's six reducers as pure state
    transitions. */
module ProductSlice {
  import opened Wrappers
  import opened Seqs

  datatype Product = Product(
    id: string,
    name: string,
    description: string,
    price: int,
    category: string,
    image: string,
    stock: int,
    featured: bool)

  datatype ProductState = ProductState(
    items: seq<Product>,
    featured: seq<Product>,
    loading: bool,
    error: Option<string>,
    selectedProduct: Option<Product>)

  const InitialState := ProductState([], [], false, None, None)

  /** Some product in `ps` has id `id`. */
  predicate HasId(ps: seq<Product>, id: string)
  {
    exists p :: p in ps && p.id == id
  }

  /** The slice invariant: every featured entry names a product of the catalogue. */
  predicate FeaturedInItems(s: ProductState)
  {
    forall f :: f in s.featured ==> HasId(s.items, f.id)
  }

  function IsFeatured(p: Product): bool
  {
    p.featured
  }

  /** `setProducts(ps)`: replace the catalogue and recompute the featured
      sublist as the featured products of `ps`, in order. */
  function SetProducts(s: ProductState, ps: seq<Product>): (r: ProductState)
    ensures r.items == ps
    ensures forall p :: p in r.featured <==> p in ps && p.featured
    ensures forall p {:trigger multiset(r.featured)[p]} :: multiset(r.featured)[p] == if p.featured then multiset(ps)[p] else 0
    ensures Subseq(r.featured, ps)
    ensures r.loading == s.loading && r.error == s.error && r.selectedProduct == s.selectedProduct
  {
    s.(items := ps, featured := Filter(IsFeatured, ps))
  }

  function SetSelectedProduct(s: ProductState, p: Product): (r: ProductState)
    ensures r.selectedProduct == Some(p)
    ensures r.items == s.items && r.featured == s.featured && r.loading == s.loading && r.error == s.error
  {
    s.(selectedProduct := Some(p))
  }

  function SetLoading(s: ProductState, b: bool): (r: ProductState)
    ensures r.loading == b
    ensures r.items == s.items && r.featured == s.featured && r.error == s.error
    ensures r.selectedProduct == s.selectedProduct
  {
    s.(loading := b)
  }

  /** `setError(e)`, with `None` for the source's `null`. */
  function SetError(s: ProductState, e: Option<string>): (r: ProductState)
    ensures r.error == e
    ensures r.items == s.items && r.featured == s.featured && r.loading == s.loading
    ensures r.selectedProduct == s.selectedProduct
  {
    s.(error := e)
  }

  function HasIdPred(id: string): Product -> bool
  {
    (p: Product) => p.id == id
  }

  function LacksId(id: string): Product -> bool
  {
    (p: Product) => p.id != id
  }

  /** `updateProduct(x)`: when some catalogue entry has `x`'s id, the FIRST
      such entry is replaced by `x`; then `x` is appended to the featured list
      if it is featured (with no check for an entry already there), or every
      featured entry with its id is dropped if not. With no entry of that id
      the state is unchanged. */
  function UpdateProduct(s: ProductState, x: Product): (r: ProductState)
    ensures !HasId(s.items, x.id) ==> r == s
    ensures HasId(s.items, x.id) ==>
      exists k :: 0 <= k < |s.items| && s.items[k].id == x.id
        && (forall j :: 0 <= j < k ==> s.items[j].id != x.id)
        && r.items == s.items[k := x]
    ensures HasId(s.items, x.id) && x.featured ==> r.featured == s.featured + [x]
    ensures HasId(s.items, x.id) && !x.featured ==>
      && (forall f :: f in r.featured <==> f in s.featured && f.id != x.id)
      && (forall f {:trigger multiset(r.featured)[f]} :: multiset(r.featured)[f] == if f.id != x.id then multiset(s.featured)[f] else 0)
      && Subseq(r.featured, s.featured)
    ensures r.loading == s.loading && r.error == s.error && r.selectedProduct == s.selectedProduct
  {
    var index := FindIndex(HasIdPred(x.id), s.items);
    match index
    case None =>
      assert !HasId(s.items, x.id) by {
        forall p | p in s.items
          ensures p.id != x.id
        {
          var i :| 0 <= i < |s.items| && s.items[i] == p;
          assert !HasIdPred(x.id)(s.items[i]);
        }
      }
      s
    case Some(k) =>
      assert s.items[k] in s.items;
      s.(items := s.items[k := x],
         featured := if x.featured then s.featured + [x] else Filter(LacksId(x.id), s.featured))
  }

  /** `removeProduct(id)`: drop every entry with that id from the catalogue
      and from the featured list, keeping the order of the rest. */
  function RemoveProduct(s: ProductState, id: string): (r: ProductState)
    ensures !HasId(r.items, id) && !HasId(r.featured, id)
    ensures forall p :: p in r.items <==> p in s.items && p.id != id
    ensures forall p :: p in r.featured <==> p in s.featured && p.id != id
    ensures forall p {:trigger multiset(r.items)[p]} :: multiset(r.items)[p] == if p.id != id then multiset(s.items)[p] else 0
    ensures forall p {:trigger multiset(r.featured)[p]} :: multiset(r.featured)[p] == if p.id != id then multiset(s.featured)[p] else 0
    ensures Subseq(r.items, s.items) && Subseq(r.featured, s.featured)
    ensures r.loading == s.loading && r.error == s.error && r.selectedProduct == s.selectedProduct
  {
    s.(items := Filter(LacksId(id), s.items), featured := Filter(LacksId(id), s.featured))
  }

  // ---------------------------------------------------------------------
  // The featured invariant

  lemma SetProductsEstablishes(s: ProductState, ps: seq<Product>)
    ensures FeaturedInItems(SetProducts(s, ps))
  {
  }

  lemma UpdateProductPreserves(s: ProductState, x: Product)
    requires FeaturedInItems(s)
    ensures FeaturedInItems(UpdateProduct(s, x))
  {
    var r := UpdateProduct(s, x);
    if HasId(s.items, x.id) {
      var k :| 0 <= k < |s.items| && s.items[k].id == x.id && r.items == s.items[k := x];
      assert x in r.items by {
        assert r.items[k] == x;
      }
      forall f | f in r.featured
        ensures HasId(r.items, f.id)
      {
        if f.id == x.id {
        } else {
          assert f in s.featured;
          var p :| p in s.items && p.id == f.id;
          var i :| 0 <= i < |s.items| && s.items[i] == p;
          assert i != k;
          assert r.items[i] == p;
        }
      }
    }
  }

  lemma RemoveProductPreserves(s: ProductState, id: string)
    requires FeaturedInItems(s)
    ensures FeaturedInItems(RemoveProduct(s, id))
  {
    var r := RemoveProduct(s, id);
    forall f | f in r.featured
      ensures HasId(r.items, f.id)
    {
      var p :| p in s.items && p.id == f.id;
      assert p in r.items;
    }
  }

  // ---------------------------------------------------------------------
  // The quirk of `updateProduct`

  /** Updating a product that is already featured appends a second entry for
      it: the featured list is not de-duplicated, and it no longer equals the
      featured products of the catalogue. */
  lemma UpdateFeaturedDuplicates(p: Product)
    requires p.featured
    ensures UpdateProduct(SetProducts(InitialState, [p]), p).featured == [p, p]
    ensures UpdateProduct(SetProducts(InitialState, [p]), p).items == [p]
  {
    var s := SetProducts(InitialState, [p]);
    assert s.featured == [p];
    assert p in s.items;
  }

  // ---------------------------------------------------------------------
  // The reducer

  datatype ProductAction =
    | SetProductsAction(products: seq<Product>)
    | SetSelectedProductAction(product: Product)
    | SetLoadingAction(loading: bool)
    | SetErrorAction(error: Option<string>)
    | UpdateProductAction(product: Product)
    | RemoveProductAction(id: string)

  function Reduce(s: ProductState, a: ProductAction): ProductState
  {
    match a
    case SetProductsAction(ps) => SetProducts(s, ps)
    case SetSelectedProductAction(p) => SetSelectedProduct(s, p)
    case SetLoadingAction(b) => SetLoading(s, b)
    case SetErrorAction(e) => SetError(s, e)
    case UpdateProductAction(p) => UpdateProduct(s, p)
    case RemoveProductAction(id) => RemoveProduct(s, id)
  }

  function ReduceAll(s: ProductState, actions: seq<ProductAction>): ProductState
    decreases |actions|
  {
    if actions == [] then s else ReduceAll(Reduce(s, actions[0]), actions[1..])
  }

  /** Every action keeps every featured entry inside the catalogue. */
  lemma ReducePreserves(s: ProductState, a: ProductAction)
    requires FeaturedInItems(s)
    ensures FeaturedInItems(Reduce(s, a))
  {
    match a
    case SetProductsAction(ps) => SetProductsEstablishes(s, ps);
    case SetSelectedProductAction(p) =>
    case SetLoadingAction(b) =>
    case SetErrorAction(e) =>
    case UpdateProductAction(p) => UpdateProductPreserves(s, p);
    case RemoveProductAction(id) => RemoveProductPreserves(s, id);
  }

  /** So does every sequence of dispatched actions. */
  lemma {:induction false} ReduceAllPreserves(s: ProductState, actions: seq<ProductAction>)
    requires FeaturedInItems(s)
    ensures FeaturedInItems(ReduceAll(s, actions))
    decreases |actions|
  {
    if actions != [] {
      ReducePreserves(s, actions[0]);
      ReduceAllPreserves(Reduce(s, actions[0]), actions[1..]);
    }
  }

  lemma ReachableStatesValid(actions: seq<ProductAction>)
    ensures FeaturedInItems(ReduceAll(InitialState, actions))
  {
    ReduceAllPreserves(InitialState, actions);
  }
}
