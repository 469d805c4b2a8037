/** The older product routes of src/Server/ProductRoutes.js, over the same
    `products` table: the product update that answers PUT /products/:id,
    the callback-style image-slot update and the Promise-based bulk
    discount update. Reading and deleting a product behave as in
    BackEnd/ProductRoutes.js (Products.Present, Products.ProductTable.Delete). */
module LegacyProducts {
  import opened Wrappers
  import opened Http
  import opened JsValues
  import opened Tables
  import opened Decimal
  import opened Products

  /** The row the first PUT /products/:id handler writes over p: the
      destructuring default gives discount 0 only when it is undefined,
      and a falsy specs is stored as NULL. */
  function LegacyUpdatedProduct(p: Product, f: ProductForm): (q: Product)
    ensures q.image == p.image
    ensures f.discount.Undefined? ==> q.discount == Num(0.0)
    ensures !f.discount.Undefined? ==> q.discount == f.discount
    ensures q.specs == NullCell <==> Falsy(f.specs)
    ensures q.name == f.name && q.description == f.description && q.fullDescription == f.fullDescription
            && q.price == f.price && q.category == f.category
  {
    Product(f.name, f.description, f.fullDescription, f.price,
            DefaultIfUndefined(f.discount, Num(0.0)), f.category,
            if Truthy(f.specs) then Json(f.specs) else NullCell,
            p.image)
  }

  /** The two handlers registered for PUT /products/:id write the same row
      except for a discount that is present but falsy (kept here, 0 in the
      second handler) and a specs that is present but falsy (NULL here,
      its JSON text there). */
  lemma UpdateHandlersDiffer(p: Product, f: ProductForm)
    ensures LegacyUpdatedProduct(p, f).discount == UpdatedProduct(p, f).discount
            <==> f.discount.Undefined? || Truthy(f.discount) || f.discount == Num(0.0)
    ensures LegacyUpdatedProduct(p, f).specs == UpdatedProduct(p, f).specs
            <==> f.specs.Undefined? || Truthy(f.specs)
  {
  }

  /** `JSON.parse(products[0].image) || []`: JSON.parse(null) is null, so
      NULL reads as []; the empty string and malformed text make JSON.parse
      throw (None). */
  function LegacyImages(c: Cell<seq<string>>): (r: Option<seq<string>>)
    ensures r.None? <==> c.EmptyText? || c.Malformed?
    ensures c.Json? ==> r == Some(c.value)
    ensures c.NullCell? ==> r == Some([])
  {
    match c
    case NullCell => Some([])
    case EmptyText => None
    case Json(l) => Some(l)
    case Malformed => None
  }

  /** The two image-slot handlers read the stored list alike except for an
      empty column, which BackEnd/ProductRoutes.js reads as []. */
  lemma ImageReadsDiffer(c: Cell<seq<string>>)
    ensures LegacyImages(c) != ImagesForUpdate(c) <==> c.EmptyText?
  {
  }

  /** What the Promise-based PUT /update-discounts answers and leaves in
      the table. Only the discount is used: `product.discount.toFixed`
      throws unless it is a number, and the id is passed to the UPDATE as
      it is. */
  function LegacyBulkOutcome(rows: seq<Row<Product>>, payload: DiscountPayload, faults: DbFaults)
    : (out: (Reply, seq<Row<Product>>))
    ensures out.0 == Status(BAD_REQUEST) <==> payload.NotAnArray?
    ensures out.0 == Status(OK) || out.1 == rows
    ensures out.0 == Status(OK) <==>
              payload.Entries? && !faults.beginFails && !faults.commitFails
              && (forall i :: 0 <= i < |payload.entries| ==>
                    IsNumber(payload.entries[i].discount) && i !in faults.failedUpdates)
    ensures out.0 == Status(OK) ==> out.1 == ApplyDiscounts(rows, payload.entries)
    ensures out.0 in {Status(OK), Status(BAD_REQUEST), Status(SERVER_ERROR)}
  {
    if payload.NotAnArray? then (Status(BAD_REQUEST), rows)
    else
      var es := payload.entries;
      if faults.beginFails
         || (exists i :: 0 <= i < |es| && (!IsNumber(es[i].discount) || i in faults.failedUpdates))
         || faults.commitFails
      then (Status(SERVER_ERROR), rows)
      else (Status(OK), ApplyDiscounts(rows, es))
  }

  /** An empty list is refused by BackEnd/ProductRoutes.js and committed,
      changing nothing, here. */
  lemma EmptyDiscountListAccepted(rows: seq<Row<Product>>)
    ensures LegacyBulkOutcome(rows, Entries([]), DbFaults(false, {}, false)) == (Status(OK), rows)
    ensures BulkDiscountOutcome(rows, Entries([]), DbFaults(false, {}, false)) == (Status(BAD_REQUEST), rows)
  {
  }

  /** Whatever BackEnd/ProductRoutes.js commits, this variant commits too,
      with the same table afterwards. */
  lemma LegacyAgreesWhenBackEndCommits(rows: seq<Row<Product>>, payload: DiscountPayload, faults: DbFaults)
    requires BulkDiscountOutcome(rows, payload, faults).0 == Status(OK)
    ensures LegacyBulkOutcome(rows, payload, faults) == BulkDiscountOutcome(rows, payload, faults)
  {
    var es := payload.entries;
    assert forall i :: 0 <= i < |es| ==> ValidEntry(es[i]);
  }

  /** An entry with a falsy id, which BackEnd/ProductRoutes.js rejects,
      changes no row here: it names no key of the table. */
  lemma FalsyIdChangesNothing(rows: seq<Row<Product>>, nextId: int, e: DiscountEntry)
    requires WellFormed(rows, nextId)
    requires Falsy(e.id)
    ensures ApplyDiscount(rows, e) == rows
  {
    if e.discount.Num? && KeyOf(e.id).Some? {
      assert e.id == Num(0.0);
      assert !HasId(rows, 0);
    }
  }

  /** The first n discounts are numbers and their UPDATEs succeed. */
  predicate DiscountsPass(es: seq<DiscountEntry>, faults: DbFaults, n: int)
    requires n <= |es|
  {
    forall j :: 0 <= j < n ==> IsNumber(es[j].discount) && j !in faults.failedUpdates
  }

  /** PUT /products/:id as answered by its first registered handler. */
  method UpdateProduct(t: ProductTable, id: int, form: ProductForm) returns (r: Reply)
    requires t.Valid()
    modifies t`rows
    ensures t.Valid()
    ensures !HasRequiredFields(form) ==> r == Status(BAD_REQUEST) && t.rows == old(t.rows)
    ensures HasRequiredFields(form) && !HasId(old(t.rows), id) ==>
              r == Status(NOT_FOUND) && t.rows == old(t.rows)
    ensures HasRequiredFields(form) && HasId(old(t.rows), id) ==>
              var k := Find(old(t.rows), id).value;
              r == Status(OK)
              && t.rows == old(t.rows)[k := Row(id, LegacyUpdatedProduct(old(t.rows)[k].data, form))]
  {
    if !HasRequiredFields(form) {
      return Status(BAD_REQUEST);
    }
    var k := Find(t.rows, id);
    if k.None? {
      return Status(NOT_FOUND);
    }
    var updated := LegacyUpdatedProduct(t.rows[k.value].data, form);
    UpdateWellFormed(t.rows, t.nextId, k.value, updated);
    t.rows := t.rows[k.value := Row(id, updated)];
    r := Status(OK);
  }

  /** PUT /products/:id/image with its nested query callbacks; a JSON.parse
      that throws inside the callback is not caught by the handler. */
  method UpdateImage(t: ProductTable, id: int, file: Option<string>, index: Option<int>)
    returns (r: Reply, newImage: Option<string>)
    requires t.Valid()
    modifies t`rows
    ensures t.Valid()
    ensures r != Status(OK) ==> t.rows == old(t.rows) && newImage.None?
    ensures file.None? ==> r == Status(BAD_REQUEST)
    ensures file.Some? && (index.None? || index.value < 0 || index.value > MAX_SLOT) ==>
              r == Status(BAD_REQUEST)
    ensures file.Some? && index.Some? && 0 <= index.value <= MAX_SLOT && !HasId(old(t.rows), id) ==>
              r == Status(NOT_FOUND)
    ensures r == Uncaught <==>
              file.Some? && index.Some? && 0 <= index.value <= MAX_SLOT && HasId(old(t.rows), id)
              && LegacyImages(old(t.rows)[Find(old(t.rows), id).value].data.image).None?
    ensures file.Some? && index.Some? && 0 <= index.value <= MAX_SLOT && HasId(old(t.rows), id)
            && LegacyImages(old(t.rows)[Find(old(t.rows), id).value].data.image).Some?
            && index.value >= |LegacyImages(old(t.rows)[Find(old(t.rows), id).value].data.image).value| ==>
              r == Status(BAD_REQUEST)
    ensures r == Status(OK) <==>
              file.Some? && index.Some? && 0 <= index.value <= MAX_SLOT && HasId(old(t.rows), id)
              && LegacyImages(old(t.rows)[Find(old(t.rows), id).value].data.image).Some?
              && index.value < |LegacyImages(old(t.rows)[Find(old(t.rows), id).value].data.image).value|
    ensures r == Status(OK) ==>
              var k := Find(old(t.rows), id).value;
              var current := LegacyImages(old(t.rows)[k].data.image).value;
              var images := SetSlot(current, index.value, UploadPath(file.value)).value;
              && t.rows == old(t.rows)[k := Row(id, old(t.rows)[k].data.(image := Json(images)))]
              && newImage == Some(images[index.value])
              && newImage == Some(UploadPath(file.value))
  {
    newImage := None;
    if file.None? {
      return Status(BAD_REQUEST), newImage;
    }
    if index.None? || index.value < 0 || index.value > MAX_SLOT {
      return Status(BAD_REQUEST), newImage;
    }
    var k := Find(t.rows, id);
    if k.None? {
      return Status(NOT_FOUND), newImage;
    }
    var parsed := LegacyImages(t.rows[k.value].data.image);
    if parsed.None? {
      return Uncaught, newImage;
    }
    var current := parsed.value;
    var i := index.value;
    if i >= |current| {
      return Status(BAD_REQUEST), newImage;
    }
    var slots := new string[|current|](j requires 0 <= j < |current| => current[j]);
    slots[i] := UploadPath(file.value);
    var images := slots[..];
    assert images == SetSlot(current, i, UploadPath(file.value)).value;
    var updated := t.rows[k.value].data.(image := Json(images));
    UpdateWellFormed(t.rows, t.nextId, k.value, updated);
    t.rows := t.rows[k.value := Row(id, updated)];
    newImage := Some(images[i]);
    r := Status(OK);
  }

  /** PUT /update-discounts: one UPDATE per element inside a transaction;
      any rejected UPDATE, or a failed COMMIT, rolls everything back. */
  method UpdateDiscounts(t: ProductTable, payload: DiscountPayload, faults: DbFaults) returns (r: Reply)
    requires t.Valid()
    modifies t`rows
    ensures t.Valid()
    ensures (r, t.rows) == LegacyBulkOutcome(old(t.rows), payload, faults)
  {
    if payload.NotAnArray? {
      return Status(BAD_REQUEST);
    }
    if faults.beginFails {
      return Status(SERVER_ERROR);
    }
    var es := payload.entries;
    var snapshot := t.rows;
    var failed, at := DispatchUpdates(t, es, faults);
    if !failed && faults.commitFails {
      failed := true;
    }
    if failed {
      t.rows := snapshot;                         // rollback
      r := Status(SERVER_ERROR);
      assert faults.commitFails || (!IsNumber(es[at].discount) || at in faults.failedUpdates);
    } else {
      r := Status(OK);
    }
  }

  /** `products.map(...)` issuing one UPDATE per element, taken in order;
      it reports the first element whose UPDATE is rejected. */
  method DispatchUpdates(t: ProductTable, es: seq<DiscountEntry>, faults: DbFaults) returns (failed: bool, at: int)
    requires t.Valid()
    modifies t`rows
    ensures t.Valid()
    ensures !failed ==> t.rows == ApplyDiscounts(old(t.rows), es) && DiscountsPass(es, faults, |es|)
    ensures failed ==> 0 <= at < |es| && (!IsNumber(es[at].discount) || at in faults.failedUpdates)
    ensures failed ==> DiscountsPass(es, faults, at)
  {
    failed, at := false, 0;
    var i := 0;
    while i < |es|
      invariant 0 <= i <= |es|
      invariant WellFormed(t.rows, t.nextId)
      invariant t.rows == ApplyDiscounts(old(t.rows), es[..i])
      invariant DiscountsPass(es, faults, i)
    {
      var e := es[i];
      if !IsNumber(e.discount) || i in faults.failedUpdates {
        return true, i;                           // the promise rejects
      }
      ApplyDiscountsStep(old(t.rows), es, i);
      SameKeysWellFormed(t.rows, ApplyDiscount(t.rows, e), t.nextId);
      t.rows := ApplyDiscount(t.rows, e);
      i := i + 1;
    }
    assert es[..i] == es;
  }
}
