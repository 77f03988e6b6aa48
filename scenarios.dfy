/**
 * Client code that uses only the contracts of `Shop`: the order lifecycle
 * walked through on the seeded inventory, and the second verification of an
 * already delivered order.
 */
module Scenarios {
  import opened Wrappers
  import opened Catalog
  import opened Orders
  import opened Shop

  /**
   * Verifying the same order twice: once it has been delivered, the second
   * call finds no such pending order, provided ids in the ledger are unique.
   */
  method VerifyTwice(shop: Shop, orderId: string, t1: string, t2: string)
    returns (first: Reply, second: Reply)
    requires shop.Valid() && shop.LedgerConsistent()
    modifies shop
    ensures first.Ok? ==> second == NotFound
  {
    var keys1, keys2;
    first, keys1 := shop.Verify(orderId, t1);
    if first.Ok? {
      RemovedIdGone(old(shop.pending), old(FindOrder(shop.pending, orderId)));
    }
    second, keys2 := shop.Verify(orderId, t2);
  }

  /** The pending order that buying two 1-day keys creates. */
  function TwoDayOrder(): Order {
    Order("ORD-1", "key_1day", 2, "", "a@b.com", 10, None, Pending, "t0", None, None, None)
  }

  /** Buy two 1-day keys: one pending order, priced 2 × 5. */
  method BuyTwoDayKeys() {
    var shop := new Shop.Seeded();
    var r := shop.Buy("key_1day", Some(2), "a@b.com", "", "ORD-1", None, "t0");
    assert r.Ok? && shop.pending == [TwoDayOrder()];
  }

  /**
   * Verify that order: two keys issued in order, one left, the order
   * delivered and no longer pending (a second verification is `VerifyTwice`).
   */
  method VerifyTwoDayKeys() {
    var shop := new Shop.Load(SampleInventory(), SAMPLE_IDS, [TwoDayOrder()], map[], None);
    assert FindOrder(shop.pending, "ORD-1") == 0;
    ghost var day := KeysOf(shop.inventory["key_1day"]);
    assert |day| == 3 && shop.CanVerify("ORD-1");
    var v, keys := shop.Verify("ORD-1", "t1");
    assert v.Ok? && keys == day[..2];
    assert keys == ["1D-AAAA-0001", "1D-AAAA-0002"];
    assert KeysOf(shop.inventory["key_1day"]) == day[2..];
    assert Stock(shop.inventory["key_1day"]) == 1;
    assert shop.pending == [] && "ORD-1" in shop.delivered;
    assert shop.delivered["ORD-1"].status == Delivered;
  }

  /** Buy five lifetime keys when only one exists: verification refuses and nothing moves. */
  method BuyBeyondStock() {
    var shop := new Shop.Seeded();
    var r := shop.Buy("key_lifetime", Some(5), "a@b.com", "Ann", "ORD-2", Some("proof.png"), "t0");
    assert "/uploads/" + "proof.png" == "/uploads/proof.png";
    assert r.Ok? && shop.pending[0].proofPath == Some("/uploads/proof.png");
    assert FindOrder(shop.pending, "ORD-2") == 0;
    var v, keys := shop.Verify("ORD-2", "t1");
    assert v == NotEnoughStock && v.HttpStatus() == 400 && keys == [];
    assert Stock(shop.inventory["key_lifetime"]) == 1 && |shop.pending| == 1;
  }

  /** Invalid purchases: nothing is added to pending. */
  method RejectedPurchases() {
    var shop := new Shop.Seeded();
    var r1 := shop.Buy("key_1day", Some(0), "a@b.com", "", "ORD-3", None, "t0");
    assert r1 == BadRequest("Qty must be >= 1");
    var r2 := shop.Buy("key_1day", None, "", "", "ORD-4", None, "t0");
    assert r2 == BadRequest("productId and email required");
    var r3 := shop.Buy("key_week", None, "a@b.com", "", "ORD-5", None, "t0");
    assert r3 == BadRequest("Invalid productId");
    assert shop.pending == [];
  }

  /** Cancel a pending order: it leaves pending for the canceled list and no key moves. */
  method BuyThenCancel() {
    var shop := new Shop.Seeded();
    var r := shop.Buy("key_3day", None, "a@b.com", "", "ORD-6", None, "t0");
    assert r.Ok? && shop.pending[0].qty == 1;
    assert FindOrder(shop.pending, "ORD-6") == 0;
    var c := shop.Cancel("ORD-6", "t1");
    assert c.Ok? && shop.pending == [];
    assert shop.canceled.Some? && |shop.canceled.value| == 1;
    assert shop.canceled.value[0].status == Canceled && shop.canceled.value[0].canceledAt == Some("t1");
    assert shop.inventory == SampleInventory();
    var again := shop.Cancel("ORD-6", "t2");
    assert again == NotFound && again.HttpStatus() == 404;
  }
}
