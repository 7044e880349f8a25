/** The product list view (`ProductList`): the user's products, the search filter, the
    edit-modal switch, and the local patches applied after a save or a delete. */
module ProductListPage {
  import opened Wrappers
  import opened Text
  import opened Sequences
  import opened Entities
  import opened ProductModalForm

  const LoadError := "Erro ao carregar produtos. Tente novamente."
  const DeleteError := "Erro ao excluir produto. Tente novamente."

  // ----- Search filter -----

  /** The filter test: the lower-cased name contains the lower-cased term, or the product has
      a non-empty description whose lower-cased text contains it. */
  predicate Matches(p: Product, term: string) {
    Includes(LowerStr(p.nome), LowerStr(term)) ||
    (Truthy(p.descricao) && Includes(LowerStr(p.descricao.value), LowerStr(term)))
  }

  /** `filteredProducts`: the products that match the term, in list order. */
  function FilterProducts(products: seq<Product>, term: string): (r: seq<Product>)
    ensures IsSubsequence(r, products)
    ensures forall i :: 0 <= i < |r| ==> Matches(r[i], term)
    ensures forall i :: 0 <= i < |products| ==> (products[i] in r <==> Matches(products[i], term))
  {
    Filter(products, p => Matches(p, term))
  }

  /** A product is kept exactly when the term occurs, ignoring case, in its name or in its
      non-empty description. */
  lemma MatchesIffOccurs(p: Product, term: string)
    ensures Matches(p, term) <==>
      (exists i :: OccursAt(LowerStr(p.nome), LowerStr(term), i)) ||
      (Truthy(p.descricao) && exists i :: OccursAt(LowerStr(p.descricao.value), LowerStr(term), i))
  {
    IncludesIffOccurs(LowerStr(p.nome), LowerStr(term));
    if Truthy(p.descricao) {
      IncludesIffOccurs(LowerStr(p.descricao.value), LowerStr(term));
    }
  }

  /** An empty search keeps every product. */
  lemma FilterEmptyTermKeepsAll(products: seq<Product>)
    ensures FilterProducts(products, "") == products
  {
    forall i | 0 <= i < |products|
      ensures Matches(products[i], "")
    {
      IncludesEmpty(LowerStr(products[i].nome));
    }
    FilterKeepsAll(products, p => Matches(p, ""));
  }

  /** Filtering the filtered list again with the same term changes nothing. */
  lemma FilterProductsIdempotent(products: seq<Product>, term: string)
    ensures FilterProducts(FilterProducts(products, term), term) == FilterProducts(products, term)
  {
    FilterIdempotent(products, p => Matches(p, term));
  }

  /** The search ignores the case of the term. */
  lemma FilterIgnoresTermCase(products: seq<Product>, term: string)
    ensures FilterProducts(products, LowerStr(term)) == FilterProducts(products, term)
  {
    LowerStrIdempotent(term);
    FilterCongruent(products, p => Matches(p, LowerStr(term)), p => Matches(p, term));
  }

  // ----- Save and delete patches -----

  /** `products.some(p => p.id === id)`. */
  predicate HasId(products: seq<Product>, id: nat) {
    exists i :: 0 <= i < |products| && products[i].id == id
  }

  /** The ids in the list are pairwise distinct (the table's primary key). */
  predicate UniqueIds(products: seq<Product>) {
    forall i, j :: 0 <= i < j < |products| ==> products[i].id != products[j].id
  }

  /** Every product in the list belongs to user `uid`. */
  predicate OwnedBy(products: seq<Product>, uid: string) {
    forall i :: 0 <= i < |products| ==> products[i].userId == uid
  }

  /** `products.map(p => p.id === saved.id ? saved : p)`. */
  function ReplaceById(products: seq<Product>, saved: Product): (r: seq<Product>)
    ensures |r| == |products|
    ensures forall i :: 0 <= i < |products| ==>
      r[i] == if products[i].id == saved.id then saved else products[i]
  {
    if products == [] then []
    else [if products[0].id == saved.id then saved else products[0]] + ReplaceById(products[1..], saved)
  }

  /** `handleProductSaved`: a new id is put at the head of the list; a known id has every
      entry with that id replaced where it stands. */
  function SaveMerge(products: seq<Product>, saved: Product): (r: seq<Product>)
    ensures !HasId(products, saved.id) ==> r == [saved] + products && |r| == |products| + 1
    ensures HasId(products, saved.id) ==> |r| == |products|
    ensures HasId(products, saved.id) ==>
      forall i :: 0 <= i < |products| ==>
        (products[i].id == saved.id ==> r[i] == saved) &&
        (products[i].id != saved.id ==> r[i] == products[i])
    ensures HasId(r, saved.id)
  {
    if !HasId(products, saved.id) then
      assert ([saved] + products)[0] == saved;
      [saved] + products
    else
      var r := ReplaceById(products, saved);
      var i :| 0 <= i < |products| && products[i].id == saved.id;
      assert r[i].id == saved.id;
      r
  }

  /** Saving the same record twice gives the list that saving it once gives. */
  lemma SaveMergeIdempotent(products: seq<Product>, saved: Product)
    ensures SaveMerge(SaveMerge(products, saved), saved) == SaveMerge(products, saved)
  {
    var once := SaveMerge(products, saved);
    var twice := SaveMerge(once, saved);
    assert |twice| == |once|;
    forall i | 0 <= i < |once|
      ensures twice[i] == once[i]
    {
      if !HasId(products, saved.id) && i > 0 {
        assert once[i] == products[i - 1];
        assert products[i - 1].id != saved.id;
      }
    }
  }

  /** After a save, every entry with the saved id is the saved record, and the ids are those
      of before plus the saved one. */
  lemma SaveMergeContents(products: seq<Product>, saved: Product)
    ensures var r := SaveMerge(products, saved);
      (forall i :: 0 <= i < |r| && r[i].id == saved.id ==> r[i] == saved) &&
      (forall id :: HasId(r, id) <==> HasId(products, id) || id == saved.id)
  {
    var r := SaveMerge(products, saved);
    if !HasId(products, saved.id) {
      forall id | HasId(products, id)
        ensures HasId(r, id)
      {
        var i :| 0 <= i < |products| && products[i].id == id;
        assert r[i + 1] == products[i];
      }
      forall id | HasId(r, id) && id != saved.id
        ensures HasId(products, id)
      {
        var i :| 0 <= i < |r| && r[i].id == id;
        assert r[i] == products[i - 1];
      }
    } else {
      forall id | HasId(products, id)
        ensures HasId(r, id)
      {
        var i :| 0 <= i < |products| && products[i].id == id;
        assert r[i].id == id;
      }
    }
  }

  /** Saving into a list of distinct ids leaves the ids distinct: exactly one entry then
      carries the saved id. */
  lemma SaveMergeKeepsIdsUnique(products: seq<Product>, saved: Product)
    requires UniqueIds(products)
    ensures UniqueIds(SaveMerge(products, saved))
  {
    var r := SaveMerge(products, saved);
    if !HasId(products, saved.id) {
      forall i, j | 0 <= i < j < |r|
        ensures r[i].id != r[j].id
      {
        assert r[j] == products[j - 1];
        if i > 0 {
          assert r[i] == products[i - 1];
        }
      }
    }
  }

  /** Saving a record of user `uid` keeps the list owned by `uid`. */
  lemma SaveMergeKeepsOwner(products: seq<Product>, saved: Product, uid: string)
    requires OwnedBy(products, uid) && saved.userId == uid
    ensures OwnedBy(SaveMerge(products, saved), uid)
  {
    var r := SaveMerge(products, saved);
    if !HasId(products, saved.id) {
      forall i | 0 <= i < |r|
        ensures r[i].userId == uid
      {
        if i > 0 {
          assert r[i] == products[i - 1];
        }
      }
    }
  }

  /** The patch after a successful delete: `products.filter(p => p.id !== id)`. */
  function RemoveById(products: seq<Product>, id: nat): (r: seq<Product>)
    ensures IsSubsequence(r, products)
    ensures !HasId(r, id)
    ensures forall i :: 0 <= i < |products| && products[i].id != id ==> products[i] in r
    ensures forall i :: 0 <= i < |r| ==> r[i] in products
  {
    Filter(products, (p: Product) => p.id != id)
  }

  /** Deleting an id that is not in the list changes nothing. */
  lemma RemoveAbsentId(products: seq<Product>, id: nat)
    requires !HasId(products, id)
    ensures RemoveById(products, id) == products
  {
    FilterKeepsAll(products, (p: Product) => p.id != id);
  }

  /** In a list of distinct ids, deleting a present id removes exactly one entry, and the
      remaining ids stay distinct. */
  lemma {:induction false} RemoveExactlyOne(products: seq<Product>, id: nat)
    requires UniqueIds(products) && HasId(products, id)
    ensures |RemoveById(products, id)| == |products| - 1
  {
    var rest := products[1..];
    if products[0].id == id {
      assert !HasId(rest, id);
      RemoveAbsentId(rest, id);
    } else {
      var k :| 0 <= k < |products| && products[k].id == id;
      assert rest[k - 1].id == id;
      RemoveExactlyOne(rest, id);
    }
  }

  /** Putting a product in front of a list of distinct ids that lacks its id keeps them
      distinct. */
  lemma PrependKeepsIdsUnique(p: Product, products: seq<Product>)
    requires UniqueIds(products)
    requires forall j :: 0 <= j < |products| ==> products[j].id != p.id
    ensures UniqueIds([p] + products)
  {
    var r := [p] + products;
    forall i, j | 0 <= i < j < |r|
      ensures r[i].id != r[j].id
    {
      assert r[j] == products[j - 1];
    }
  }

  /** Deleting keeps the ids distinct. */
  lemma {:induction false} RemoveKeepsIdsUnique(products: seq<Product>, id: nat)
    requires UniqueIds(products)
    ensures UniqueIds(RemoveById(products, id))
  {
    if products != [] {
      var rest := products[1..];
      RemoveKeepsIdsUnique(rest, id);
      var tail := RemoveById(rest, id);
      if products[0].id != id {
        assert RemoveById(products, id) == [products[0]] + tail;
        forall j | 0 <= j < |tail|
          ensures tail[j].id != products[0].id
        {
          var k :| 0 <= k < |rest| && rest[k] == tail[j];
          assert products[k + 1] == tail[j];
        }
        PrependKeepsIdsUnique(products[0], tail);
      }
    }
  }

  /** Deleting keeps the list owned by its user. */
  lemma RemoveKeepsOwner(products: seq<Product>, id: nat, uid: string)
    requires OwnedBy(products, uid)
    ensures OwnedBy(RemoveById(products, id), uid)
  {
    var r := RemoveById(products, id);
    forall i | 0 <= i < |r|
      ensures r[i].userId == uid
    {
      assert r[i] in products;
    }
  }

  // ----- A save from the modal, seen from the list -----

  /** Editing a listed product: after the modal's save the list keeps its length, the edited
      entry shows the saved row at the same position, and every other entry is unchanged. */
  lemma EditedProductStaysInPlace(products: seq<Product>, k: nat, form: ProductForm,
                                  imageFile: Option<PickedFile>, r: SaveResponses)
    requires UniqueIds(products) && k < |products|
    requires SaveProduct(Some(products[k]), form, imageFile, r).result.Success?
    ensures var row := SaveProduct(Some(products[k]), form, imageFile, r).result.value;
      var after := SaveMerge(products, row);
      |after| == |products| && after[k] == row &&
      forall i :: 0 <= i < |products| && i != k ==> after[i] == products[i]
  {
    var row := SaveProduct(Some(products[k]), form, imageFile, r).result.value;
    assert products[k].id == row.id;
  }

  /** Creating a product whose new id is not listed puts the saved row at the head of the list,
      followed by the old list. */
  lemma CreatedProductIsPrepended(products: seq<Product>, form: ProductForm,
                                  imageFile: Option<PickedFile>, r: SaveResponses)
    requires !HasId(products, r.insertedId)
    requires SaveProduct(None, form, imageFile, r).result.Success?
    ensures var row := SaveProduct(None, form, imageFile, r).result.value;
      SaveMerge(products, row) == [row] + products
  {
  }

  // ----- The component's state -----

  class ProductList {
    var products: seq<Product>
    var searchTerm: string
    var isProductModalOpen: bool
    var editingProduct: Option<Product>
    var loading: bool
    var error: Option<string>

    /** The initial `useState` values. */
    constructor ()
      ensures products == [] && searchTerm == "" && !isProductModalOpen
      ensures editingProduct == None && loading && error == None
    {
      products := [];
      searchTerm := "";
      isProductModalOpen := false;
      editingProduct := None;
      loading := true;
      error := None;
    }

    /** The list on display. */
    function FilteredProducts(): (r: seq<Product>)
      reads this
      ensures IsSubsequence(r, products)
      ensures forall i :: 0 <= i < |r| ==> Matches(r[i], searchTerm)
      ensures forall i :: 0 <= i < |products| ==> (products[i] in r <==> Matches(products[i], searchTerm))
    {
      FilterProducts(products, searchTerm)
    }

    /** `fetchProducts`: `signedIn` is the outcome of `getUser`, `response` that of the select
        (its value is `data`, possibly null). Any failure shows the generic load error and
        leaves the list as it was. */
    method LoadProducts(signedIn: bool, response: Result<Option<seq<Product>>>)
      modifies this
      ensures !loading
      ensures signedIn && response.Success? ==>
        products == response.value.GetOr([]) && error == None
      ensures !(signedIn && response.Success?) ==>
        products == old(products) && error == Some(LoadError)
      ensures searchTerm == old(searchTerm) && isProductModalOpen == old(isProductModalOpen)
      ensures editingProduct == old(editingProduct)
    {
      loading := true;
      error := None;
      if !signedIn || response.Failure? {
        error := Some(LoadError);
      } else {
        products := response.value.GetOr([]);
      }
      loading := false;
    }

    /** The search input's `onChange`. */
    method SetSearchTerm(term: string)
      modifies this
      ensures searchTerm == term
      ensures products == old(products) && isProductModalOpen == old(isProductModalOpen)
      ensures editingProduct == old(editingProduct) && loading == old(loading) && error == old(error)
    {
      searchTerm := term;
    }

    /** `openProductModal(product = null)`: `None` opens it to create a product. */
    method OpenProductModal(product: Option<Product>)
      modifies this
      ensures isProductModalOpen && editingProduct == product
      ensures products == old(products) && searchTerm == old(searchTerm)
      ensures loading == old(loading) && error == old(error)
    {
      editingProduct := product;
      isProductModalOpen := true;
    }

    /** `closeProductModal`. */
    method CloseProductModal()
      modifies this
      ensures !isProductModalOpen && editingProduct == None
      ensures products == old(products) && searchTerm == old(searchTerm)
      ensures loading == old(loading) && error == old(error)
    {
      isProductModalOpen := false;
      editingProduct := None;
    }

    /** `handleProductSaved`. */
    method HandleProductSaved(saved: Product)
      modifies this
      ensures products == SaveMerge(old(products), saved)
      ensures UniqueIds(old(products)) ==> UniqueIds(products)
      ensures searchTerm == old(searchTerm) && isProductModalOpen == old(isProductModalOpen)
      ensures editingProduct == old(editingProduct) && loading == old(loading) && error == old(error)
    {
      if UniqueIds(products) {
        SaveMergeKeepsIdsUnique(products, saved);
      }
      products := SaveMerge(products, saved);
    }

    /** What the modal's save does to the list: on success `onProductSaved(row)` then `onClose()`;
        a failed save leaves the modal open and the list as it was. */
    method ApplySaveOutcome(o: SaveOutcome)
      modifies this
      ensures o.result.Success? ==>
        products == SaveMerge(old(products), o.result.value) && !isProductModalOpen && editingProduct == None
      ensures o.result.Failure? ==>
        products == old(products) && isProductModalOpen == old(isProductModalOpen) && editingProduct == old(editingProduct)
      ensures UniqueIds(old(products)) ==> UniqueIds(products)
      ensures searchTerm == old(searchTerm) && loading == old(loading) && error == old(error)
    {
      if o.result.Success? {
        HandleProductSaved(o.result.value);
        CloseProductModal();
      }
    }

    /** `handleDeleteProduct`: `confirmed` is the answer to `window.confirm`, `deleteFailed`
        the outcome of the delete call. Returns whether the delete call was issued. */
    method HandleDeleteProduct(productId: nat, confirmed: bool, deleteFailed: bool)
      returns (deleteIssued: bool)
      modifies this
      ensures deleteIssued == confirmed
      ensures confirmed && !deleteFailed ==>
        products == RemoveById(old(products), productId) && error == old(error)
      ensures confirmed && deleteFailed ==> products == old(products) && error == Some(DeleteError)
      ensures !confirmed ==> products == old(products) && error == old(error)
      ensures UniqueIds(old(products)) ==> UniqueIds(products)
      ensures searchTerm == old(searchTerm) && isProductModalOpen == old(isProductModalOpen)
      ensures editingProduct == old(editingProduct) && loading == old(loading)
    {
      deleteIssued := false;
      if confirmed {
        deleteIssued := true;
        if deleteFailed {
          error := Some(DeleteError);
        } else {
          if UniqueIds(products) {
            RemoveKeepsIdsUnique(products, productId);
          }
          products := RemoveById(products, productId);
        }
      }
    }
  }
}
