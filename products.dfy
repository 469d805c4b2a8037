/** The `products` table and the product routes of BackEnd/ProductRoutes.js:
    create with uploaded images, update, image-slot update, read with the
    JSON fallback, delete, and the transactional bulk discount update. */
module Products {
  import opened Wrappers
  import opened Http
  import opened JsValues
  import opened Tables
  import opened Decimal

  /** What a serialized text column (`specs`, `image`) holds: SQL NULL, the
      empty string, the JSON text of a value, or text JSON.parse rejects. */
  datatype Cell<T> = NullCell | EmptyText | Json(value: T) | Malformed

  datatype Product = Product(
    name: JsValue,
    description: JsValue,
    fullDescription: JsValue,
    price: JsValue,
    discount: JsValue,
    category: JsValue,
    specs: Cell<JsValue>,
    image: Cell<seq<string>>)

  /** The body fields the create and update routes read. */
  datatype ProductForm = ProductForm(
    name: JsValue,
    description: JsValue,
    fullDescription: JsValue,
    price: JsValue,
    discount: JsValue,
    category: JsValue,
    specs: JsValue)

  /** A product as GET /products/:id answers it, with specs and image parsed. */
  datatype ProductView = ProductView(id: int, row: Product, specs: JsValue, image: seq<string>)

  /** One element of the `products` array of PUT /update-discounts. An
      element that is not an object reads as two undefined fields. */
  datatype DiscountEntry = DiscountEntry(id: JsValue, discount: JsValue)

  datatype DiscountPayload = NotAnArray | Entries(entries: seq<DiscountEntry>)

  /** Failures of the database itself during the discount transaction:
      BEGIN failing, the UPDATEs at these positions failing, COMMIT failing. */
  datatype DbFaults = DbFaults(beginFails: bool, failedUpdates: set<int>, commitFails: bool)

  /** `upload.array("image", 3)` */
  const MAX_UPLOADS := 3
  /** Image slots are addressed 0..2. */
  const MAX_SLOT := 2
  /** The discount column's default, which INSERT leaves to the schema. */
  const DISCOUNT_DEFAULT: JsValue := Num(0.0)

  function UploadPath(filename: string): string {
    "/uploads/" + filename
  }

  function UploadPaths(files: seq<string>): (paths: seq<string>)
    ensures |paths| == |files|
    ensures forall i :: 0 <= i < |files| ==> paths[i] == UploadPath(files[i])
  {
    seq(|files|, i requires 0 <= i < |files| => UploadPath(files[i]))
  }

  /** `!name || !description || !fullDescription || !price || !category` is false. */
  predicate HasRequiredFields(f: ProductForm) {
    Truthy(f.name) && Truthy(f.description) && Truthy(f.fullDescription)
    && Truthy(f.price) && Truthy(f.category)
  }

  /** The row POST /products inserts. */
  function NewProduct(f: ProductForm, files: seq<string>): (p: Product)
    ensures p.image == Json(UploadPaths(files))
    ensures Truthy(f.specs) ==> p.specs == Json(f.specs)
    ensures Falsy(f.specs) ==> p.specs == NullCell
  {
    Product(f.name, f.description, f.fullDescription, f.price, DISCOUNT_DEFAULT, f.category,
            if Truthy(f.specs) then Json(f.specs) else NullCell,
            Json(UploadPaths(files)))
  }

  /** The row PUT /products/:id writes over p: every field from the form,
      `discount || 0`, `JSON.stringify(specs)`, the image list kept. An
      undefined specs stringifies to undefined; it is taken as SQL NULL. */
  function UpdatedProduct(p: Product, f: ProductForm): (q: Product)
    ensures q.image == p.image
    ensures Truthy(q.discount)  || q.discount == Num(0.0)
    ensures Truthy(f.discount) ==> q.discount == f.discount
    ensures Falsy(f.discount) ==> q.discount == Num(0.0)
    ensures f.specs.Undefined? <==> q.specs == NullCell
    ensures q.name == f.name && q.description == f.description && q.fullDescription == f.fullDescription
            && q.price == f.price && q.category == f.category
  {
    Product(f.name, f.description, f.fullDescription, f.price, Or(f.discount, Num(0.0)), f.category,
            if f.specs.Undefined? then NullCell else Json(f.specs),
            p.image)
  }

  /** `JSON.parse(image || '[]')`: None when the parse throws. */
  function ImagesForUpdate(c: Cell<seq<string>>): (r: Option<seq<string>>)
    ensures r.None? <==> c.Malformed?
    ensures c.Json? ==> r == Some(c.value)
    ensures c.NullCell? || c.EmptyText? ==> r == Some([])
  {
    match c
    case NullCell => Some([])
    case EmptyText => Some([])
    case Json(l) => Some(l)
    case Malformed => None
  }

  /** `currentImages[index] = path` where only an existing slot may be set. */
  function SetSlot(images: seq<string>, index: int, path: string): (r: Option<seq<string>>)
    ensures r.Some? <==> 0 <= index < |images|
    ensures r.Some? ==> |r.value| == |images|
    ensures r.Some? ==> r.value[index] == path
    ensures r.Some? ==> forall j :: 0 <= j < |images| && j != index ==> r.value[j] == images[j]
  {
    if 0 <= index < |images| then Some(images[index := path]) else None
  }

  /** The two JSON.parse calls of GET /products/:id in one try block: a
      NULL or empty column reads as [], and if either parse throws both
      fields become []. */
  function Present(id: int, p: Product): (v: ProductView)
    ensures v.id == id && v.row == p
    ensures p.specs.Malformed? || p.image.Malformed? ==> v.specs == Arr([]) && v.image == []
    ensures !p.specs.Malformed? && !p.image.Malformed? ==>
              v.specs == (if p.specs.Json? then p.specs.value else Arr([]))
              && v.image == (if p.image.Json? then p.image.value else [])
  {
    if p.specs.Malformed? || p.image.Malformed? then ProductView(id, p, Arr([]), [])
    else
      ProductView(id, p,
                  if p.specs.Json? then p.specs.value else Arr([]),
                  if p.image.Json? then p.image.value else [])
  }

  /** What POST /products stores comes back from GET /products/:id: the
      upload paths in order, and the specs sent (or [] when none were). */
  lemma CreatedProductReadsBack(id: int, f: ProductForm, files: seq<string>)
    ensures Present(id, NewProduct(f, files)).image == UploadPaths(files)
    ensures Present(id, NewProduct(f, files)).specs == (if Truthy(f.specs) then f.specs else Arr([]))
  {
  }

  /** A slot update never changes what the other slots read back as. */
  lemma SlotUpdateReadsBack(id: int, p: Product, images: seq<string>, index: int, path: string)
    requires ImagesForUpdate(p.image) == Some(images) && !p.specs.Malformed?
    requires 0 <= index < |images|
    ensures var q := p.(image := Json(SetSlot(images, index, path).value));
            var v := Present(id, q);
            |v.image| == |images| && v.image[index] == path
            && (forall j :: 0 <= j < |images| && j != index ==> v.image[j] == images[j])
  {
  }

  // ---------------------------------------------------------------------
  // PUT /update-discounts

  /** The check at the top of each loop iteration: `!id || typeof discount !== 'number'` is false. */
  predicate ValidEntry(e: DiscountEntry) {
    Truthy(e.id) && IsNumber(e.discount)
  }

  /** `UPDATE products SET discount = <discount rounded> WHERE id = ?` for
      one entry; an entry whose discount is not a number changes nothing. */
  function ApplyDiscount(rows: seq<Row<Product>>, e: DiscountEntry): (r: seq<Row<Product>>)
    ensures |r| == |rows|
    ensures forall i :: 0 <= i < |rows| ==> r[i].id == rows[i].id
  {
    if !e.discount.Num? then rows
    else match KeyOf(e.id)
      case None => rows
      case Some(k) =>
        match Find(rows, k)
        case None => rows
        case Some(i) => rows[i := Row(rows[i].id, rows[i].data.(discount := Num(Round2(e.discount.n))))]
  }

  /** The entries applied one after the other, in order. */
  function ApplyDiscounts(rows: seq<Row<Product>>, es: seq<DiscountEntry>): (r: seq<Row<Product>>)
    decreases |es|
  {
    if es == [] then rows
    else ApplyDiscount(ApplyDiscounts(rows, es[..|es| - 1]), es[|es| - 1])
  }

  /** The rounded discount of the last entry that names `key`, if any. */
  function LastDiscountFor(es: seq<DiscountEntry>, key: int): (d: Option<real>)
    ensures d.Some? ==> HasTwoDecimals(d.value)
    decreases |es|
  {
    if es == [] then None
    else
      var e := es[|es| - 1];
      if e.discount.Num? && KeyOf(e.id) == Some(key) then Some(Round2(e.discount.n))
      else LastDiscountFor(es[..|es| - 1], key)
  }

  /** After the entries are applied, each product's discount is the rounded
      value of the last entry naming it; a product no entry names keeps its
      row, and every other column of every row is unchanged. */
  lemma {:induction false} ApplyDiscountsEffect(rows: seq<Row<Product>>, nextId: int, es: seq<DiscountEntry>)
    requires WellFormed(rows, nextId)
    ensures var r := ApplyDiscounts(rows, es);
            |r| == |rows|
            && forall i :: 0 <= i < |rows| ==>
                 r[i].id == rows[i].id
                 && r[i].data == (match LastDiscountFor(es, rows[i].id)
                                  case None => rows[i].data
                                  case Some(d) => rows[i].data.(discount := Num(d)))
    decreases |es|
  {
    if es != [] {
      var init := es[..|es| - 1];
      var e := es[|es| - 1];
      ApplyDiscountsEffect(rows, nextId, init);
      var mid := ApplyDiscounts(rows, init);
      assert WellFormed(mid, nextId);
      forall i | 0 <= i < |rows|
        ensures ApplyDiscount(mid, e)[i].data
                == (match LastDiscountFor(es, rows[i].id)
                    case None => rows[i].data
                    case Some(d) => rows[i].data.(discount := Num(d)))
      {
        if e.discount.Num? && KeyOf(e.id) == Some(rows[i].id) {
          FindUnique(mid, nextId, rows[i].id, i);
        }
      }
    }
  }

  /** The first n entries pass the check and their UPDATEs succeed. */
  predicate EntriesPass(es: seq<DiscountEntry>, faults: DbFaults, n: int)
    requires n <= |es|
  {
    forall j :: 0 <= j < n ==> ValidEntry(es[j]) && j !in faults.failedUpdates
  }

  /** What PUT /update-discounts of BackEnd/ProductRoutes.js answers and
      leaves in the table. */
  function BulkDiscountOutcome(rows: seq<Row<Product>>, payload: DiscountPayload, faults: DbFaults)
    : (out: (Reply, seq<Row<Product>>))
    ensures out.0 == Status(BAD_REQUEST) <==> payload.NotAnArray? || payload.entries == []
    ensures out.0 == Status(OK) || out.1 == rows
    ensures out.0 == Status(OK) <==>
              payload.Entries? && payload.entries != []
              && (forall i :: 0 <= i < |payload.entries| ==> ValidEntry(payload.entries[i]))
              && !faults.beginFails
              && (forall i :: 0 <= i < |payload.entries| ==> i !in faults.failedUpdates)
              && !faults.commitFails
    ensures out.0 == Status(OK) ==> out.1 == ApplyDiscounts(rows, payload.entries)
    ensures out.0 in {Status(OK), Status(BAD_REQUEST), Status(SERVER_ERROR)}
  {
    if payload.NotAnArray? || payload.entries == [] then (Status(BAD_REQUEST), rows)
    else
      var es := payload.entries;
      if faults.beginFails
         || (exists i :: 0 <= i < |es| && (!ValidEntry(es[i]) || i in faults.failedUpdates))
         || faults.commitFails
      then (Status(SERVER_ERROR), rows)
      else (Status(OK), ApplyDiscounts(rows, es))
  }

  lemma ApplyDiscountsStep(rows: seq<Row<Product>>, es: seq<DiscountEntry>, i: nat)
    requires i < |es|
    ensures ApplyDiscounts(rows, es[..i + 1]) == ApplyDiscount(ApplyDiscounts(rows, es[..i]), es[i])
  {
    assert es[..i + 1][..i] == es[..i];
  }

  lemma BulkFailure(rows: seq<Row<Product>>, payload: DiscountPayload, faults: DbFaults, i: int)
    requires payload.Entries? && payload.entries != []
    requires || faults.beginFails || faults.commitFails
             || (0 <= i < |payload.entries|
                 && (!ValidEntry(payload.entries[i]) || i in faults.failedUpdates))
    ensures BulkDiscountOutcome(rows, payload, faults) == (Status(SERVER_ERROR), rows)
  {
  }

  lemma BulkSuccess(rows: seq<Row<Product>>, payload: DiscountPayload, faults: DbFaults)
    requires payload.Entries? && payload.entries != []
    requires EntriesPass(payload.entries, faults, |payload.entries|)
    requires !faults.beginFails && !faults.commitFails
    ensures BulkDiscountOutcome(rows, payload, faults) == (Status(OK), ApplyDiscounts(rows, payload.entries))
  {
  }

  /** The `products` table, with the number of pool connections the
      handlers hold checked out. */
  class ProductTable {
    var rows: seq<Row<Product>>
    var nextId: int
    var connectionsInUse: nat

    ghost predicate Valid()
      reads this
    {
      WellFormed(rows, nextId)
    }

    constructor ()
      ensures Valid() && rows == [] && connectionsInUse == 0
    {
      rows := [];
      nextId := 1;
      connectionsInUse := 0;
    }

    /** POST /products. More than three files are refused by the upload
        middleware before the handler runs (Express answers its error
        with 500). */
    method Create(form: ProductForm, files: seq<string>) returns (r: Reply, id: int)
      requires Valid()
      modifies this
      ensures Valid() && connectionsInUse == old(connectionsInUse)
      ensures |files| > MAX_UPLOADS ==> r == Status(SERVER_ERROR)
      ensures |files| == 0 ==> r == Status(BAD_REQUEST)
      ensures r != Status(CREATED) ==> rows == old(rows) && nextId == old(nextId)
      ensures 1 <= |files| <= MAX_UPLOADS ==>
                && r == Status(CREATED) && id == old(nextId) && nextId == old(nextId) + 1
                && rows == old(rows) + [Row(id, NewProduct(form, files))]
    {
      id := 0;
      if |files| > MAX_UPLOADS {
        return Status(SERVER_ERROR), id;
      }
      if |files| == 0 {
        return Status(BAD_REQUEST), id;
      }
      id := nextId;
      rows := Insert(rows, nextId, NewProduct(form, files));
      nextId := nextId + 1;
      r := Status(CREATED);
    }

    /** PUT /products/:id */
    method Update(id: int, form: ProductForm) returns (r: Reply)
      requires Valid()
      modifies this`rows
      ensures Valid()
      ensures !HasRequiredFields(form) ==> r == Status(BAD_REQUEST) && rows == old(rows)
      ensures HasRequiredFields(form) && !HasId(old(rows), id) ==> r == Status(NOT_FOUND) && rows == old(rows)
      ensures HasRequiredFields(form) && HasId(old(rows), id) ==>
                var k := Find(old(rows), id).value;
                r == Status(OK) && rows == old(rows)[k := Row(id, UpdatedProduct(old(rows)[k].data, form))]
    {
      if !HasRequiredFields(form) {
        return Status(BAD_REQUEST);
      }
      var k := Find(rows, id);
      if k.None? {
        return Status(NOT_FOUND);
      }
      UpdateWellFormed(rows, nextId, k.value, UpdatedProduct(rows[k.value].data, form));
      rows := rows[k.value := Row(id, UpdatedProduct(rows[k.value].data, form))];
      r := Status(OK);
    }

    /** PUT /products/:id/image: `file` is the stored upload's file name,
        `index` the result of parseInt (None for NaN). */
    method UpdateImage(id: int, file: Option<string>, index: Option<int>) returns (r: Reply, newImage: Option<string>)
      requires Valid()
      modifies this`rows
      ensures Valid()
      ensures r != Status(OK) ==> rows == old(rows) && newImage.None?
      ensures file.None? ==> r == Status(BAD_REQUEST)
      ensures file.Some? && (index.None? || index.value < 0 || index.value > MAX_SLOT) ==> r == Status(BAD_REQUEST)
      ensures file.Some? && index.Some? && 0 <= index.value <= MAX_SLOT && !HasId(old(rows), id) ==>
                r == Status(NOT_FOUND)
      ensures file.Some? && index.Some? && 0 <= index.value <= MAX_SLOT && HasId(old(rows), id)
              && ImagesForUpdate(old(rows)[Find(old(rows), id).value].data.image).None? ==>
                r == Status(SERVER_ERROR)
      ensures file.Some? && index.Some? && 0 <= index.value <= MAX_SLOT && HasId(old(rows), id)
              && ImagesForUpdate(old(rows)[Find(old(rows), id).value].data.image).Some?
              && index.value >= |ImagesForUpdate(old(rows)[Find(old(rows), id).value].data.image).value| ==>
                r == Status(BAD_REQUEST)
      ensures r == Status(OK) <==>
                file.Some? && index.Some? && 0 <= index.value <= MAX_SLOT && HasId(old(rows), id)
                && ImagesForUpdate(old(rows)[Find(old(rows), id).value].data.image).Some?
                && index.value < |ImagesForUpdate(old(rows)[Find(old(rows), id).value].data.image).value|
      ensures r == Status(OK) ==>
                var k := Find(old(rows), id).value;
                var old_images := ImagesForUpdate(old(rows)[k].data.image).value;
                var images := SetSlot(old_images, index.value, UploadPath(file.value)).value;
                && rows == old(rows)[k := Row(id, old(rows)[k].data.(image := Json(images)))]
                && newImage == Some(images[index.value])
                && newImage == Some(UploadPath(file.value))
      ensures r in {Status(OK), Status(BAD_REQUEST), Status(NOT_FOUND), Status(SERVER_ERROR)}
    {
      newImage := None;
      if file.None? {
        return Status(BAD_REQUEST), newImage;
      }
      if index.None? || index.value < 0 || index.value > MAX_SLOT {
        return Status(BAD_REQUEST), newImage;
      }
      var k := Find(rows, id);
      if k.None? {
        return Status(NOT_FOUND), newImage;
      }
      var parsed := ImagesForUpdate(rows[k.value].data.image);
      if parsed.None? {
        // JSON.parse throws inside the try block
        return Status(SERVER_ERROR), newImage;
      }
      var current := parsed.value;
      var i := index.value;
      if i >= |current| {
        return Status(BAD_REQUEST), newImage;
      }
      var slots := new string[|current|](j requires 0 <= j < |current| => current[j]);
      slots[i] := UploadPath(file.value);
      var images := slots[..];
      assert images == SetSlot(current, i, UploadPath(file.value)).value;
      UpdateWellFormed(rows, nextId, k.value, rows[k.value].data.(image := Json(images)));
      rows := rows[k.value := Row(id, rows[k.value].data.(image := Json(images)))];
      newImage := Some(images[i]);
      r := Status(OK);
    }

    /** GET /products/:id */
    method Get(id: int) returns (r: Reply, view: Option<ProductView>)
      ensures r == Status(NOT_FOUND) <==> !HasId(rows, id)
      ensures r == Status(OK) <==> HasId(rows, id)
      ensures HasId(rows, id) ==> view == Some(Present(id, rows[Find(rows, id).value].data))
      ensures !HasId(rows, id) ==> view.None?
    {
      var k := Find(rows, id);
      if k.None? {
        return Status(NOT_FOUND), None;
      }
      r := Status(OK);
      view := Some(Present(id, rows[k.value].data));
    }

    /** DELETE /products/:id */
    method Delete(id: int) returns (r: Reply)
      requires Valid()
      modifies this`rows
      ensures Valid()
      ensures r == Status(NOT_FOUND) <==> !HasId(old(rows), id)
      ensures r == Status(OK) <==> HasId(old(rows), id)
      ensures rows == RemoveId(old(rows), id)
      ensures !HasId(rows, id)
    {
      var k := Find(rows, id);
      RemoveIdWellFormed(rows, nextId, id);
      rows := RemoveId(rows, id);
      r := if k.None? then Status(NOT_FOUND) else Status(OK);
    }

    /** PUT /update-discounts: one pool connection, one transaction, every
        entry checked and applied in turn; the first failure rolls the
        transaction back, and the connection is released on every path. */
    method UpdateDiscounts(payload: DiscountPayload, faults: DbFaults) returns (r: Reply)
      requires Valid()
      modifies this`rows, this`connectionsInUse
      ensures Valid() && connectionsInUse == old(connectionsInUse)
      ensures (r, rows) == BulkDiscountOutcome(old(rows), payload, faults)
    {
      if payload.NotAnArray? || payload.entries == [] {
        return Status(BAD_REQUEST);
      }
      var es := payload.entries;
      connectionsInUse := connectionsInUse + 1;   // db.getConnection()
      var snapshot := rows;                       // beginTransaction()
      var failed, at := true, 0;
      if !faults.beginFails {
        failed, at := RunDiscountUpdates(es, faults);
      }
      if !failed && faults.commitFails {
        failed := true;
      }
      if failed {
        rows := snapshot;                         // rollback()
        r := Status(SERVER_ERROR);
        BulkFailure(snapshot, payload, faults, at);
      } else {
        r := Status(OK);
        BulkSuccess(snapshot, payload, faults);
      }
      connectionsInUse := connectionsInUse - 1;   // finally: release()
    }

    /** The `for` loop of PUT /update-discounts inside the open transaction:
        it stops at the first entry that fails the check or whose UPDATE
        the database rejects, and reports its position. */
    method RunDiscountUpdates(es: seq<DiscountEntry>, faults: DbFaults) returns (failed: bool, at: int)
      requires WellFormed(rows, nextId)
      modifies this`rows
      ensures WellFormed(rows, nextId)
      ensures !failed ==> rows == ApplyDiscounts(old(rows), es) && EntriesPass(es, faults, |es|)
      ensures failed ==> 0 <= at < |es| && (!ValidEntry(es[at]) || at in faults.failedUpdates)
      ensures failed ==> EntriesPass(es, faults, at)
    {
      failed, at := false, 0;
      var i := 0;
      while i < |es|
        invariant 0 <= i <= |es|
        invariant WellFormed(rows, nextId)
        invariant rows == ApplyDiscounts(old(rows), es[..i])
        invariant EntriesPass(es, faults, i)
      {
        var e := es[i];
        if !Truthy(e.id) || !IsNumber(e.discount) || i in faults.failedUpdates {
          return true, i;                         // throw, or the UPDATE fails
        }
        ApplyDiscountsStep(old(rows), es, i);
        SameKeysWellFormed(rows, ApplyDiscount(rows, e), nextId);
        rows := ApplyDiscount(rows, e);           // UPDATE products SET discount = ? WHERE id = ?
        i := i + 1;
      }
      assert es[..i] == es;
    }
  }
}
