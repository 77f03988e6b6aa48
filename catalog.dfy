/**
 * The key inventory document: product id -> product, each product holding an
 * ordered list of unissued keys.  Allocation takes keys from the front (FIFO).
 */
module Catalog {
  import opened Wrappers

  /** An inventory entry.  `price` and `keys` may be missing in the document. */
  datatype Product = Product(id: string, name: string, price: Option<int>, keys: Option<seq<string>>)

  /** What `/api/products` shows of a product: no key values, only their count. */
  datatype ProductView = ProductView(id: string, name: string, price: Option<int>, stock: nat)

  /** `p.keys || []` */
  function KeysOf(p: Product): seq<string> {
    p.keys.GetOr([])
  }

  /** The number of keys left for a product; a missing key list counts as empty. */
  function Stock(p: Product): nat {
    |KeysOf(p)|
  }

  /** `p.price || 0` */
  function PriceOf(p: Product): int {
    p.price.GetOr(0)
  }

  /**
   * The product after `n` calls of `keys.shift()`: the first `n` keys are gone
   * and nothing else about the product changes.  With `n == 0` the product
   * object is not touched at all (a missing key list stays missing).
   */
  function Withdraw(p: Product, n: nat): (r: Product)
    requires n <= Stock(p)
    ensures KeysOf(r) == KeysOf(p)[n..]
    ensures Stock(r) == Stock(p) - n
    ensures r.id == p.id && r.name == p.name && r.price == p.price
    ensures n == 0 ==> r == p
  {
    if n == 0 then p else p.(keys := Some(KeysOf(p)[n..]))
  }

  /** The listing of `Object.values(data).map(...)`, product by product in the enumeration order of the inventory object. */
  function Listing(products: seq<Product>): (r: seq<ProductView>)
    ensures |r| == |products|
    ensures forall i :: 0 <= i < |products| ==>
              r[i].id == products[i].id && r[i].name == products[i].name &&
              r[i].price == products[i].price && r[i].stock == Stock(products[i])
  {
    if products == [] then []
    else
      var p := products[0];
      [ProductView(p.id, p.name, p.price, Stock(p))] + Listing(products[1..])
  }

  /** The products of an inventory taken in the order of `ids`. */
  function InOrder(inv: map<string, Product>, ids: seq<string>): (r: seq<Product>)
    requires forall id :: id in ids ==> id in inv
    ensures |r| == |ids|
    ensures forall i :: 0 <= i < |ids| ==> r[i] == inv[ids[i]]
  {
    if ids == [] then [] else [inv[ids[0]]] + InOrder(inv, ids[1..])
  }

  /**
   * The listing reveals no key value: two inventories give the same listing
   * exactly when they agree on ids, names, prices and key counts, whatever the
   * keys themselves are.
   */
  lemma {:induction false} ListingHidesKeys(ps: seq<Product>, qs: seq<Product>)
    ensures Listing(ps) == Listing(qs) <==>
              |ps| == |qs| &&
              forall i :: 0 <= i < |ps| ==>
                ps[i].id == qs[i].id && ps[i].name == qs[i].name &&
                ps[i].price == qs[i].price && Stock(ps[i]) == Stock(qs[i])
  {
    if Listing(ps) == Listing(qs) {
      forall i | 0 <= i < |ps|
        ensures ps[i].id == qs[i].id && ps[i].name == qs[i].name &&
                ps[i].price == qs[i].price && Stock(ps[i]) == Stock(qs[i])
      {
        assert Listing(ps)[i] == Listing(qs)[i];
      }
    }
  }

  /** No key occurs twice in one list. */
  ghost predicate NoDuplicates(s: seq<string>) {
    forall i, j :: 0 <= i < j < |s| ==> s[i] != s[j]
  }

  /** No key string occurs twice anywhere in the inventory (within or across products). */
  ghost predicate KeysDistinct(inv: map<string, Product>) {
    && (forall a :: a in inv ==> NoDuplicates(KeysOf(inv[a])))
    && (forall a, b, k :: a in inv && b in inv && a != b && k in KeysOf(inv[a]) ==> k !in KeysOf(inv[b]))
  }

  /**
   * Taking the first `n` keys of one product keeps the inventory free of
   * duplicates, and none of the taken keys is left anywhere in it.  Across
   * verifications this gives `Shop.KeysIssuedOnce`.
   */
  lemma WithdrawIssuesOnce(inv: map<string, Product>, pid: string, n: nat)
    requires KeysDistinct(inv)
    requires pid in inv && n <= Stock(inv[pid])
    ensures KeysDistinct(inv[pid := Withdraw(inv[pid], n)])
    ensures forall q, k :: q in inv && k in KeysOf(inv[pid])[..n] ==>
              k !in KeysOf(inv[pid := Withdraw(inv[pid], n)][q])
  {
    var inv' := inv[pid := Withdraw(inv[pid], n)];
    var ks := KeysOf(inv[pid]);
    assert KeysOf(inv'[pid]) == ks[n..];
    forall q, k | q in inv && k in ks[..n]
      ensures k !in KeysOf(inv'[q])
    {
      var t :| 0 <= t < n && ks[t] == k;
      if q == pid {
        forall i | 0 <= i < |ks[n..]| ensures ks[n..][i] != k {
          assert ks[n..][i] == ks[n + i];
        }
      } else {
        assert k in ks;
      }
    }
  }

  /** The seeded sample inventory written when no inventory document exists. */
  const SAMPLE_IDS: seq<string> := ["key_1day", "key_3day", "key_lifetime"]

  function SampleInventory(): map<string, Product> {
    map[
      "key_1day" := Product("key_1day", "1 Day", Some(5), Some(["1D-AAAA-0001", "1D-AAAA-0002", "1D-AAAA-0003"])),
      "key_3day" := Product("key_3day", "3 Day", Some(10), Some(["3D-BBBB-1001", "3D-BBBB-1002"])),
      "key_lifetime" := Product("key_lifetime", "Lifetime", Some(25), Some(["LIFE-CCCC-9001"]))
    ]
  }

  /** The first character every key of a sample product starts with. */
  function SampleLead(pid: string): char {
    if pid == "key_1day" then '1' else if pid == "key_3day" then '3' else 'L'
  }

  lemma SampleProductKeys(pid: string)
    requires pid in SampleInventory()
    ensures NoDuplicates(KeysOf(SampleInventory()[pid]))
    ensures forall k :: k in KeysOf(SampleInventory()[pid]) ==> |k| > 0 && k[0] == SampleLead(pid)
  {
    var ks := KeysOf(SampleInventory()[pid]);
    if pid == "key_1day" {
      assert ks[0][11] == '1' && ks[1][11] == '2' && ks[2][11] == '3';
    } else if pid == "key_3day" {
      assert ks[0][11] == '1' && ks[1][11] == '2';
    }
  }

  lemma SampleLeadDiffers(a: string, b: string)
    requires a in SampleInventory() && b in SampleInventory() && a != b
    ensures SampleLead(a) != SampleLead(b)
  {
    assert a == "key_1day" || a == "key_3day" || a == "key_lifetime";
    assert b == "key_1day" || b == "key_3day" || b == "key_lifetime";
    assert "key_1day"[4] != "key_3day"[4];
  }

  /** The seeded inventory starts out with no duplicate key. */
  lemma SampleKeysDistinct()
    ensures KeysDistinct(SampleInventory())
  {
    forall a | a in SampleInventory() ensures NoDuplicates(KeysOf(SampleInventory()[a])) {
      SampleProductKeys(a);
    }
    forall a, b, k | a in SampleInventory() && b in SampleInventory() && a != b && k in KeysOf(SampleInventory()[a])
      ensures k !in KeysOf(SampleInventory()[b])
    {
      SampleProductKeys(a);
      SampleProductKeys(b);
      SampleLeadDiffers(a, b);
    }
  }
}
