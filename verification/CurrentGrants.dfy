/** The read side: one effective grant per product, from all of a customer's rows. */
module CurrentGrants {
  import opened Options
  import opened Moments
  import opened EntitlementRules
  import opened EntitlementRuns

  /** The product columns the decision, the client filter and the lease read. */
  datatype Product = Product(active: bool, feature: string, traderEnabled: bool, nt8Enabled: bool, hasNt8Key: bool)

  /** An entitlement row joined with its product. */
  datatype Candidate = Candidate(key: Source, row: Row, product: Product)

  predicate Licensed(c: Candidate, now: int) {
    c.product.active && InForce(c.key, c.row, now)
  }

  /** No end is the furthest end. */
  predicate EndsNoLater(left: Option<int>, right: Option<int>) {
    right.None? || (left.Some? && left.value <= right.value)
  }

  predicate AnyLicensed(rows: seq<Candidate>, product: string, now: int) {
    exists i :: 0 <= i < |rows| && rows[i].row.product == product && Licensed(rows[i], now)
  }

  /** The best of a product's rows: a licensed one of furthest end if any is licensed, else the first listed. */
  predicate IsBest(rows: seq<Candidate>, product: string, best: Candidate, now: int) {
    && (exists i :: 0 <= i < |rows| && rows[i] == best && best.row.product == product
          && (!Licensed(best, now) ==> forall j :: 0 <= j < i ==> rows[j].row.product != product))
    && (AnyLicensed(rows, product, now) ==> Licensed(best, now))
    && (forall i :: 0 <= i < |rows| && rows[i].row.product == product && Licensed(rows[i], now) && Licensed(best, now)
          ==> EndsNoLater(rows[i].row.expiresAt, best.row.expiresAt))
  }

  function Products(rows: seq<Candidate>): set<string> {
    set i | 0 <= i < |rows| :: rows[i].row.product
  }

  /** The choice after one more row of the product. */
  function Better(before: Option<Candidate>, grant: Candidate, now: int): Candidate {
    if before.None? || (Licensed(grant, now) && !Licensed(before.value, now)) then grant
    else if Licensed(grant, now) && Licensed(before.value, now)
         && !EndsNoLater(grant.row.expiresAt, before.value.row.expiresAt) then grant
    else before.value
  }

  /** Looking at one more row keeps the choice best. */
  lemma OneMoreRow(rows: seq<Candidate>, grant: Candidate, product: string, before: Option<Candidate>, after: Candidate, now: int)
    requires before.Some? ==> IsBest(rows, product, before.value, now)
    requires before.None? ==> forall i :: 0 <= i < |rows| ==> rows[i].row.product != product
    requires grant.row.product != product ==> before == Some(after)
    requires grant.row.product == product ==> after == Better(before, grant, now)
    ensures IsBest(rows + [grant], product, after, now)
  {
    var all := rows + [grant];
    if before == Some(after) {
      var i :| 0 <= i < |rows| && rows[i] == after && after.row.product == product
        && (!Licensed(after, now) ==> forall j :: 0 <= j < i ==> rows[j].row.product != product);
      assert all[i] == after;
    } else {
      assert all[|rows|] == after;
    }
    if AnyLicensed(all, product, now) {
      var i :| 0 <= i < |all| && all[i].row.product == product && Licensed(all[i], now);
      if i < |rows| {
        assert rows[i].row.product == product && Licensed(rows[i], now);
      }
    }
  }

  /** The map holds the best row of each product seen. */
  ghost predicate AllBest(rows: seq<Candidate>, best: map<string, Candidate>, now: int) {
    && (forall i :: 0 <= i < |rows| ==> rows[i].row.product in best)
    && (forall product :: product in best ==> best[product].row.product == product && IsBest(rows, product, best[product], now))
  }

  lemma AllBestStep(rows: seq<Candidate>, best: map<string, Candidate>, grant: Candidate, now: int)
    requires AllBest(rows, best, now)
    ensures var product := grant.row.product;
      AllBest(rows + [grant], best[product := Better(if product in best then Some(best[product]) else None, grant, now)], now)
  {
    var product := grant.row.product;
    var after := best[product := Better(if product in best then Some(best[product]) else None, grant, now)];
    forall p | p in after
      ensures after[p].row.product == p && IsBest(rows + [grant], p, after[p], now)
    {
      OneMoreRow(rows, grant, p, if p in best then Some(best[p]) else None, after[p], now);
    }
  }

  /** The chosen rows, one per product, in the order their products first appear. */
  method SelectGrants(rows: seq<Candidate>, now: int) returns (grants: seq<Candidate>)
    ensures forall i, j :: 0 <= i < j < |grants| ==> grants[i].row.product != grants[j].row.product
    ensures forall i :: 0 <= i < |rows| ==> rows[i].row.product in Products(grants)
    ensures forall k :: 0 <= k < |grants| ==> IsBest(rows, grants[k].row.product, grants[k], now)
  {
    var best: map<string, Candidate>, order: seq<string> := map[], [];
    for n := 0 to |rows|
      invariant forall i, j :: 0 <= i < j < |order| ==> order[i] != order[j]
      invariant forall product :: product in best <==> product in order
      invariant AllBest(rows[..n], best, now)
    {
      var grant := rows[n];
      var product := grant.row.product;
      assert rows[..n + 1] == rows[..n] + [grant];
      AllBestStep(rows[..n], best, grant, now);
      if product !in best {
        order := order + [product];
        best := best[product := grant];
      } else {
        var chosen := KeepBetter(best[product], grant, now);
        best := best[product := chosen];
      }
    }
    assert rows[..|rows|] == rows;
    grants := seq(|order|, k requires 0 <= k < |order| && order[k] in best => best[order[k]]);
    ListedInOrder(rows, best, order, grants, now);
  }

  /** The row kept for a product when another of its rows comes up. */
  method KeepBetter(existing: Candidate, grant: Candidate, now: int) returns (kept: Candidate)
    ensures kept == Better(Some(existing), grant, now)
  {
    kept := existing;
    if Licensed(grant, now) && !Licensed(existing, now) {
      kept := grant;
    } else if Licensed(grant, now) && Licensed(existing, now) {
      var grantExpiry, existingExpiry := grant.row.expiresAt, existing.row.expiresAt;
      if (grantExpiry.None? && existingExpiry.Some?)
        || (existingExpiry.Some? && grantExpiry.Some? && grantExpiry.value > existingExpiry.value) {
        kept := grant;
      }
    }
  }

  lemma ListedInOrder(rows: seq<Candidate>, best: map<string, Candidate>, order: seq<string>, grants: seq<Candidate>, now: int)
    requires AllBest(rows, best, now) && |grants| == |order|
    requires forall i, j :: 0 <= i < j < |order| ==> order[i] != order[j]
    requires forall product :: product in best <==> product in order
    requires forall k :: 0 <= k < |order| ==> grants[k] == best[order[k]]
    ensures forall i, j :: 0 <= i < j < |grants| ==> grants[i].row.product != grants[j].row.product
    ensures forall i :: 0 <= i < |rows| ==> rows[i].row.product in Products(grants)
    ensures forall k :: 0 <= k < |grants| ==> IsBest(rows, grants[k].row.product, grants[k], now)
  {
    assert forall k :: 0 <= k < |order| ==> grants[k].row.product == order[k];
    forall i | 0 <= i < |rows|
      ensures rows[i].row.product in Products(grants)
    {
      assert rows[i].row.product in order;
      var k :| 0 <= k < |order| && order[k] == rows[i].row.product;
      assert grants[k].row.product == rows[i].row.product;
    }
  }

  /** Which product, with which end, is licensed does not depend on the order of the rows. */
  lemma RowOrderDoesNotMatter(rows: seq<Candidate>, rows': seq<Candidate>, product: string, best: Candidate, best': Candidate, now: int)
    requires forall c :: c in rows <==> c in rows'
    requires IsBest(rows, product, best, now) && IsBest(rows', product, best', now)
    ensures Licensed(best, now) == Licensed(best', now)
    ensures Licensed(best, now) ==> best.row.expiresAt == best'.row.expiresAt
  {
    assert best in rows' && best' in rows;
    var i :| 0 <= i < |rows'| && rows'[i] == best;
    var j :| 0 <= j < |rows| && rows[j] == best';
    assert Licensed(best, now) ==> Licensed(rows'[i], now);
    assert Licensed(best', now) ==> Licensed(rows[j], now);
  }

  // ----- From the tables -----

  /** The query result: exactly the customer's rows. */
  ghost predicate Lists(rows: seq<Candidate>, db: Db, customer: string, products: map<string, Product>) {
    forall c :: c in rows <==> IsRowOf(c, db, customer, products)
  }

  predicate IsRowOf(c: Candidate, db: Db, customer: string, products: map<string, Product>) {
    && c.key in db.entitlements && db.entitlements[c.key] == c.row && c.row.customer == customer
    && c.row.product in products && products[c.row.product] == c.product
  }

  predicate Gives(db: Db, key: Source, customer: string, product: string, now: int) {
    && key in db.entitlements && db.entitlements[key].customer == customer
    && db.entitlements[key].product == product && InForce(key, db.entitlements[key], now)
  }

  /** Some row gives the customer the product now. */
  ghost predicate Holds(db: Db, customer: string, product: string, products: map<string, Product>, now: int) {
    product in products && products[product].active && exists key :: Gives(db, key, customer, product, now)
  }

  /** A product is reported licensed exactly when one of the customer's rows gives it. */
  lemma LicensedMeansHeld(rows: seq<Candidate>, db: Db, customer: string, products: map<string, Product>, product: string, best: Candidate, now: int)
    requires Lists(rows, db, customer, products) && IsBest(rows, product, best, now)
    ensures Licensed(best, now) <==> Holds(db, customer, product, products, now)
  {
    if Licensed(best, now) {
      assert best in rows;
      assert Gives(db, best.key, customer, product, now);
    }
    if Holds(db, customer, product, products, now) {
      var key :| Gives(db, key, customer, product, now);
      var c := Candidate(key, db.entitlements[key], products[product]);
      assert c in rows;
      var i :| 0 <= i < |rows| && rows[i] == c;
      assert Licensed(rows[i], now);
    }
  }

  /** No run about other sources can take a product away from a customer one live source gives it to. */
  lemma OtherSourcesCannotUnlicense(db: Db, run: seq<Timed>, key: Source, products: map<string, Product>, now: int)
    requires key in db.entitlements && InForce(key, db.entitlements[key], now)
    requires db.entitlements[key].product in products && products[db.entitlements[key].product].active
    requires forall i :: 0 <= i < |run| ==> KeyOf(run[i].step) != Some(key)
    ensures Holds(Exec(db, run), db.entitlements[key].customer, db.entitlements[key].product, products, now)
  {
    OtherSourcesUntouched(db, run, key);
    assert RowAt(Exec(db, run), key) == Some(db.entitlements[key]);
    assert Gives(Exec(db, run), key, db.entitlements[key].customer, db.entitlements[key].product, now);
  }

  // ----- By the columns of a row -----

  /** A row is licensed when its product is active, it is active or trialing, or a Whop row marked expired before its end,
      it has no revocation time, and now lies from its start on and before its end. */
  lemma LicensedByColumns(c: Candidate, now: int)
    ensures Licensed(c, now) <==>
      (c.product.active && c.row.revokedAt.None?
       && (c.row.startsAt.None? || c.row.startsAt.value <= now) && (c.row.expiresAt.None? || now < c.row.expiresAt.value)
       && (c.row.status == Active || c.row.status == Trialing || (c.row.status == Expired && !c.key.Manual? && c.row.expiresAt.Some?)))
  {
  }

  /** The row reported for a licensed product has no end, or the latest of the ends, and then no licensed row lacks one. */
  lemma BestRowEndsLast(rows: seq<Candidate>, product: string, best: Candidate, now: int, i: nat)
    requires IsBest(rows, product, best, now) && Licensed(best, now)
    requires i < |rows| && rows[i].row.product == product && Licensed(rows[i], now)
    ensures best.row.expiresAt.Some? ==> rows[i].row.expiresAt.Some? && rows[i].row.expiresAt.value <= best.row.expiresAt.value
  {
  }
}
