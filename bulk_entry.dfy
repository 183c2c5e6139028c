/**
 * The selection and creation logic of src/components/BulkAIProductEntry.js: the products an
 * image analysis extracted, the set of selected indices, and the loop that creates the selected
 * products one by one while counting successes and collecting error messages.
 */
module BulkEntry {
  import opened Wrappers

  /** An extracted product, a plain object of string fields (`name`, `category`, ...). */
  type Fields = map<string, string>

  /** `${value}` of a field: a missing field reads as `undefined`. */
  function FieldText(p: Fields, f: string): string
  {
    if f in p then p[f] else "undefined"
  }

  /** The indices 0 .. n-1: `new Set(products.map((_, index) => index))`. */
  function AllIndices(n: nat): (r: set<int>)
    ensures forall i :: i in r <==> 0 <= i < n
  {
    if n == 0 then {} else AllIndices(n - 1) + {n - 1}
  }

  /** The set of all indices has exactly one element per product. */
  lemma {:induction false} AllIndicesSize(n: nat)
    ensures |AllIndices(n)| == n
  {
    if n > 0 {
      AllIndicesSize(n - 1);
      assert AllIndices(n) == AllIndices(n - 1) + {n - 1};
    }
  }

  /** `toggleProductSelection`: `i` leaves the set when it is in it and joins it otherwise. */
  function Toggle(s: set<int>, i: int): (r: set<int>)
    ensures i in r <==> i !in s
    ensures forall j :: j != i ==> (j in r <==> j in s)
  {
    if i in s then s - {i} else s + {i}
  }

  /** Toggling the same index twice gives back the original selection. */
  lemma ToggleTwice(s: set<int>, i: int)
    ensures Toggle(Toggle(s, i), i) == s
  {
  }

  /**
   * `toggleAllProducts`: when the selection has as many elements as there are products it is
   * emptied, otherwise every index is selected.
   */
  function ToggleAll(s: set<int>, n: nat): (r: set<int>)
    ensures |s| == n ==> r == {}
    ensures |s| != n ==> forall i :: i in r <==> 0 <= i < n
  {
    if |s| == n then {} else AllIndices(n)
  }

  /** From nothing selected, the toggle selects everything; toggling again clears it (for n > 0). */
  lemma ToggleAllCycle(n: nat)
    requires n > 0
    ensures ToggleAll({}, n) == AllIndices(n)
    ensures ToggleAll(ToggleAll({}, n), n) == {}
  {
  }

  /**
   * `extractedProducts.filter((_, index) => selectedProducts.has(index))`: the products whose
   * index is selected, in their original order.
   */
  function Selected(products: seq<Fields>, sel: set<int>): (r: seq<Fields>)
    ensures |r| <= |products|
    ensures r == [] <==> forall i :: 0 <= i < |products| ==> i !in sel
    decreases |products|
  {
    if products == [] then []
    else
      var n := |products| - 1;
      var init := Selected(products[..n], sel);
      assert init == [] <==> forall i :: 0 <= i < n ==> i !in sel;
      init + (if n in sel then [products[n]] else [])
  }

  /** The selected indices below `n`, in increasing order: the positions the filter keeps. */
  function SelectedIndices(sel: set<int>, n: nat): (idx: seq<int>)
    ensures forall k :: 0 <= k < |idx| ==> 0 <= idx[k] < n && idx[k] in sel
    ensures forall k, l :: 0 <= k < l < |idx| ==> idx[k] < idx[l]
    ensures forall i :: 0 <= i < n && i in sel ==> i in idx
  {
    if n == 0 then []
    else
      var init := SelectedIndices(sel, n - 1);
      init + (if n - 1 in sel then [n - 1] else [])
  }

  /**
   * The filter keeps exactly the products at the selected indices, in their original order:
   * its k-th product is the product at the k-th selected index.
   */
  lemma {:induction false} SelectedAt(products: seq<Fields>, sel: set<int>)
    ensures |Selected(products, sel)| == |SelectedIndices(sel, |products|)|
    ensures forall k :: 0 <= k < |Selected(products, sel)| ==>
      Selected(products, sel)[k] == products[SelectedIndices(sel, |products|)[k]]
    decreases |products|
  {
    if products != [] {
      var n := |products| - 1;
      var init := products[..n];
      SelectedAt(init, sel);
      var r, idx := Selected(products, sel), SelectedIndices(sel, |products|);
      assert r == Selected(init, sel) + (if n in sel then [products[n]] else []);
      assert idx == SelectedIndices(sel, n) + (if n in sel then [n] else []);
      forall k | 0 <= k < |r| ensures r[k] == products[idx[k]] {
        if k < |Selected(init, sel)| {
          assert r[k] == Selected(init, sel)[k] && idx[k] == SelectedIndices(sel, n)[k];
          assert init[SelectedIndices(sel, n)[k]] == products[idx[k]];
        }
      }
    }
  }

  /** The selected indices below `n`. */
  function SelectedBelow(sel: set<int>, n: nat): set<int>
  {
    set i | i in sel && 0 <= i < n
  }

  /** The filter keeps one product per selected index: the count the creation loop reports against. */
  lemma {:induction false} SelectedCount(products: seq<Fields>, sel: set<int>)
    ensures |Selected(products, sel)| == |SelectedBelow(sel, |products|)|
    decreases |products|
  {
    if products != [] {
      var n := |products| - 1;
      SelectedCount(products[..n], sel);
      if n in sel {
        assert SelectedBelow(sel, n + 1) == SelectedBelow(sel, n) + {n};
      } else {
        assert SelectedBelow(sel, n + 1) == SelectedBelow(sel, n);
      }
    }
  }

  /** With every index selected (the state right after an analysis) the filter keeps every product. */
  lemma {:induction false} SelectedAll(products: seq<Fields>)
    ensures Selected(products, AllIndices(|products|)) == products
    decreases |products|
  {
    if products != [] {
      var n := |products| - 1;
      assert Selected(products[..n], AllIndices(|products|)) == Selected(products[..n], AllIndices(n)) by {
        SelectedSameBelow(products[..n], AllIndices(|products|), AllIndices(n));
      }
      SelectedAll(products[..n]);
      assert products[..n] + [products[n]] == products;
    }
  }

  /** The filter only looks at indices inside the list. */
  lemma {:induction false} SelectedSameBelow(products: seq<Fields>, a: set<int>, b: set<int>)
    requires forall i :: 0 <= i < |products| ==> (i in a <==> i in b)
    ensures Selected(products, a) == Selected(products, b)
    decreases |products|
  {
    if products != [] {
      SelectedSameBelow(products[..|products| - 1], a, b);
    }
  }

  /**
   * `updateProductData(index, field, value)`: entry `index` becomes a copy with `field` set to
   * `value`. Every other entry, and every other field of that entry, stays as it was.
   */
  function WithField(products: seq<Fields>, index: int, f: string, v: string): (r: seq<Fields>)
    requires 0 <= index < |products|
    ensures |r| == |products|
    ensures forall j :: 0 <= j < |products| && j != index ==> r[j] == products[j]
    ensures f in r[index] && r[index][f] == v
    ensures forall g :: g != f ==> (g in r[index] <==> g in products[index])
    ensures forall g :: g != f && g in products[index] ==> r[index][g] == products[index][g]
  {
    products[index := products[index][f := v]]
  }

  /** What happened to one product of the creation loop: created, or an error with its message. */
  datatype Attempt = Created | Failed(message: string)

  /** The number of products created: at most one per attempt, and all of them only when every attempt succeeded. */
  function CreatedCount(outcomes: seq<Attempt>): (r: nat)
    ensures r <= |outcomes|
    ensures r == |outcomes| <==> forall k :: 0 <= k < |outcomes| ==> outcomes[k].Created?
  {
    if outcomes == [] then 0
    else CreatedCount(outcomes[..|outcomes| - 1]) + (if outcomes[|outcomes| - 1].Created? then 1 else 0)
  }

  /** `${product.name}: ${message}` for each failed product, in order; none exactly when every attempt succeeded. */
  function ErrorsOf(batch: seq<Fields>, outcomes: seq<Attempt>): (r: seq<string>)
    requires |outcomes| == |batch|
    ensures |r| <= |batch|
    ensures r == [] <==> forall k :: 0 <= k < |outcomes| ==> outcomes[k].Created?
  {
    if outcomes == [] then []
    else
      var n := |outcomes| - 1;
      ErrorsOf(batch[..n], outcomes[..n]) +
        (match outcomes[n]
         case Created => []
         case Failed(m) => [FieldText(batch[n], "name") + ": " + m])
  }

  /** Every product is either counted as created or has exactly one error message. */
  lemma {:induction false} CreatedPlusErrors(batch: seq<Fields>, outcomes: seq<Attempt>)
    requires |outcomes| == |batch|
    ensures CreatedCount(outcomes) + |ErrorsOf(batch, outcomes)| == |batch|
  {
    if outcomes != [] {
      var n := |outcomes| - 1;
      CreatedPlusErrors(batch[..n], outcomes[..n]);
    }
  }

  /**
   * The `for` loop of `createSelectedProducts`. The attempt for each product (image upload,
   * category lookup or creation, product POST) is given by `outcomes`; a success increments
   * `createdCount` and a failure pushes one message onto `errors`.
   */
  method CreationLoop(batch: seq<Fields>, outcomes: seq<Attempt>) returns (createdCount: nat, errors: seq<string>)
    requires |outcomes| == |batch|
    ensures createdCount == CreatedCount(outcomes)
    ensures errors == ErrorsOf(batch, outcomes)
    ensures createdCount + |errors| == |batch|
  {
    createdCount, errors := 0, [];
    var i := 0;
    while i < |batch|
      invariant 0 <= i <= |batch|
      invariant createdCount == CreatedCount(outcomes[..i])
      invariant errors == ErrorsOf(batch[..i], outcomes[..i])
    {
      assert outcomes[..i + 1][..i] == outcomes[..i];
      assert batch[..i + 1][..i] == batch[..i];
      match outcomes[i] {
        case Created =>
          createdCount := createdCount + 1;
        case Failed(m) =>
          errors := errors + [FieldText(batch[i], "name") + ": " + m];
      }
      i := i + 1;
    }
    assert outcomes[..i] == outcomes && batch[..i] == batch;
    CreatedPlusErrors(batch, outcomes);
  }

  /** The component's state. */
  class BulkForm {
    /** `extractedProducts`. */
    var extracted: seq<Fields>
    /** `selectedProducts`. */
    var selected: set<int>
    /** Whether an image is selected (`selectedImage` is not null). */
    var hasImage: bool

    constructor ()
      ensures extracted == [] && selected == {} && !hasImage
    {
      extracted, selected, hasImage := [], {}, false;
    }

    /**
     * A successful analysis reply: the products it lists (`[]` when the reply has none) are
     * stored and every one of them is selected.
     */
    method AnalysisSucceeded(products: Option<seq<Fields>>)
      modifies this
      ensures extracted == (if products.Some? then products.value else [])
      ensures selected == AllIndices(|extracted|)
      ensures hasImage == old(hasImage)
      ensures Selected(extracted, selected) == extracted
    {
      extracted := if products.Some? then products.value else [];
      selected := AllIndices(|extracted|);
      SelectedAll(extracted);
    }

    /** `toggleProductSelection(i)`: only index `i` changes membership. */
    method ToggleProductSelection(i: int)
      modifies this
      ensures selected == Toggle(old(selected), i)
      ensures extracted == old(extracted) && hasImage == old(hasImage)
    {
      selected := Toggle(selected, i);
    }

    /** `toggleAllProducts`. */
    method ToggleAllProducts()
      modifies this
      ensures selected == ToggleAll(old(selected), |extracted|)
      ensures extracted == old(extracted) && hasImage == old(hasImage)
    {
      selected := ToggleAll(selected, |extracted|);
    }

    /** `updateProductData(index, field, value)` on a product the form shows. */
    method UpdateProductData(index: int, f: string, v: string)
      requires 0 <= index < |extracted|
      modifies this
      ensures extracted == WithField(old(extracted), index, f, v)
      ensures selected == old(selected) && hasImage == old(hasImage)
    {
      extracted := WithField(extracted, index, f, v);
    }

    /**
     * `createSelectedProducts`. With nothing selected it stops before any request (`None`).
     * Otherwise every selected product is attempted in order; the result is the created count
     * and the error messages, which together account for every selected product. When at least
     * one product was created the form is reset: no image, no products, nothing selected.
     */
    method CreateSelectedProducts(outcomes: seq<Attempt>) returns (r: Option<(nat, seq<string>)>)
      requires |outcomes| == |Selected(extracted, selected)|
      modifies this
      ensures r.None? <==> Selected(old(extracted), old(selected)) == []
      ensures r.None? ==> extracted == old(extracted) && selected == old(selected) && hasImage == old(hasImage)
      ensures r.Some? ==> r.value.0 == CreatedCount(outcomes)
      ensures r.Some? ==> r.value.1 == ErrorsOf(Selected(old(extracted), old(selected)), outcomes)
      ensures r.Some? ==> r.value.0 + |r.value.1| == |SelectedBelow(old(selected), |old(extracted)|)|
      ensures r.Some? && r.value.0 > 0 ==> extracted == [] && selected == {} && !hasImage
      ensures r.Some? && r.value.0 == 0 ==>
        extracted == old(extracted) && selected == old(selected) && hasImage == old(hasImage)
    {
      var batch := Selected(extracted, selected);
      if batch == [] {
        return None;
      }
      SelectedCount(extracted, selected);
      var createdCount, errors := CreationLoop(batch, outcomes);
      if createdCount > 0 {
        extracted, selected, hasImage := [], {}, false;
      }
      r := Some((createdCount, errors));
    }
  }
}
