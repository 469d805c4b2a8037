/** The `notifications` table behind BackEnd/NotificationsRoutes.js: order
    and contact notifications shown to the administrator, created with
    every missing detail replaced by a placeholder, marked read and
    deleted by id. */
module Notifications {
  import opened Http
  import opened JsValues
  import opened Tables

  /** The placeholder for a missing detail ("no data"). */
  const NO_DATA: string := "Нет данных"

  /** The fields of a POST /notifications body. */
  datatype NotificationForm = NotificationForm(
    name: JsValue, phone: JsValue, email: JsValue, adress: JsValue,
    itemsproduct: JsValue, totalprice: JsValue, comments: JsValue, kind: JsValue)

  /** A stored notification; `kind` is the `type` column. */
  datatype Notification = Notification(form: NotificationForm, isRead: bool, createdAt: int)

  /** `v || "Нет данных"` */
  function OrNoData(v: JsValue): (r: JsValue)
    ensures Truthy(r)
    ensures Truthy(v) ==> r == v
    ensures Falsy(v) ==> r == Str(NO_DATA)
  {
    Or(v, Str(NO_DATA))
  }

  /** The seven details after defaulting; `type` is passed on as it came. */
  function Normalize(f: NotificationForm): (g: NotificationForm)
    ensures Truthy(g.name) && Truthy(g.phone) && Truthy(g.email) && Truthy(g.adress)
            && Truthy(g.itemsproduct) && Truthy(g.totalprice) && Truthy(g.comments)
    ensures g.kind == f.kind
    ensures Truthy(f.name) ==> g.name == f.name
    ensures Truthy(f.phone) ==> g.phone == f.phone
    ensures Truthy(f.email) ==> g.email == f.email
    ensures Truthy(f.adress) ==> g.adress == f.adress
    ensures Truthy(f.itemsproduct) ==> g.itemsproduct == f.itemsproduct
    ensures Truthy(f.totalprice) ==> g.totalprice == f.totalprice
    ensures Truthy(f.comments) ==> g.comments == f.comments
  {
    NotificationForm(OrNoData(f.name), OrNoData(f.phone), OrNoData(f.email), OrNoData(f.adress),
                     OrNoData(f.itemsproduct), OrNoData(f.totalprice), OrNoData(f.comments), f.kind)
  }

  /** A detail changes exactly when it was falsy, and then becomes the
      placeholder. */
  lemma NormalizeChangesOnlyFalsy(f: NotificationForm)
    ensures var g := Normalize(f);
            && (g.name != f.name <==> Falsy(f.name))
            && (g.phone != f.phone <==> Falsy(f.phone))
            && (g.email != f.email <==> Falsy(f.email))
            && (g.adress != f.adress <==> Falsy(f.adress))
            && (g.itemsproduct != f.itemsproduct <==> Falsy(f.itemsproduct))
            && (g.totalprice != f.totalprice <==> Falsy(f.totalprice))
            && (g.comments != f.comments <==> Falsy(f.comments))
  {
  }

  /** Defaulting twice is defaulting once. */
  lemma NormalizeIdempotent(f: NotificationForm)
    ensures Normalize(Normalize(f)) == Normalize(f)
  {
  }

  /** The row POST /notifications inserts: unread, stamped with NOW(). */
  function NewNotification(f: NotificationForm, now: int): (n: Notification)
    ensures !n.isRead && n.createdAt == now
    ensures n.form == Normalize(f)
  {
    Notification(Normalize(f), false, now)
  }

  /** `UPDATE notifications SET isRead = true WHERE id = ?` */
  function MarkedRead(rows: seq<Row<Notification>>, id: int): (r: seq<Row<Notification>>)
    ensures |r| == |rows|
    ensures forall k :: 0 <= k < |rows| ==> r[k].id == rows[k].id
    ensures forall k :: 0 <= k < |rows| && rows[k].id != id ==> r[k] == rows[k]
    ensures forall k :: 0 <= k < |rows| && rows[k].id == id ==>
              r[k].data.isRead && r[k].data.form == rows[k].data.form
              && r[k].data.createdAt == rows[k].data.createdAt
  {
    seq(|rows|, k requires 0 <= k < |rows| =>
      if rows[k].id == id then Row(id, rows[k].data.(isRead := true)) else rows[k])
  }

  /** Marking read a second time changes nothing. */
  lemma MarkReadIdempotent(rows: seq<Row<Notification>>, id: int)
    ensures MarkedRead(MarkedRead(rows, id), id) == MarkedRead(rows, id)
  {
    var once := MarkedRead(rows, id);
    var twice := MarkedRead(once, id);
    forall k | 0 <= k < |rows| ensures twice[k] == once[k] {
      if rows[k].id == id {
        assert once[k].data.isRead;
      }
    }
  }

  /** An id that names no row leaves the table as it was. */
  lemma MarkReadMissingId(rows: seq<Row<Notification>>, id: int)
    requires !HasId(rows, id)
    ensures MarkedRead(rows, id) == rows
  {
  }

  /** Deleting twice is deleting once. */
  lemma DeleteIdempotent(rows: seq<Row<Notification>>, id: int)
    ensures RemoveId(RemoveId(rows, id), id) == RemoveId(rows, id)
  {
  }

  class NotificationTable {
    var rows: seq<Row<Notification>>
    var nextId: int

    ghost predicate Valid()
      reads this
    {
      WellFormed(rows, nextId)
    }

    constructor ()
      ensures Valid() && rows == []
    {
      rows, nextId := [], 1;
    }

    /** POST /notifications; `dbFails` is a rejected INSERT. */
    method Create(form: NotificationForm, now: int, dbFails: bool) returns (r: Reply)
      requires Valid()
      modifies this
      ensures Valid()
      ensures dbFails ==> r == Status(SERVER_ERROR) && rows == old(rows) && nextId == old(nextId)
      ensures !dbFails ==>
                && r == Status(OK)
                && rows == old(rows) + [Row(old(nextId), NewNotification(form, now))]
                && nextId == old(nextId) + 1
    {
      if dbFails {
        return Status(SERVER_ERROR);
      }
      rows := Insert(rows, nextId, NewNotification(form, now));
      nextId := nextId + 1;
      r := Status(OK);
    }

    /** PUT /notifications/:id/read: 200 whether or not the id names a row. */
    method MarkRead(id: int, dbFails: bool) returns (r: Reply)
      requires Valid()
      modifies this`rows
      ensures Valid()
      ensures dbFails ==> r == Status(SERVER_ERROR) && rows == old(rows)
      ensures !dbFails ==> r == Status(OK) && rows == MarkedRead(old(rows), id)
    {
      if dbFails {
        return Status(SERVER_ERROR);
      }
      SameKeysWellFormed(rows, MarkedRead(rows, id), nextId);
      rows := MarkedRead(rows, id);
      r := Status(OK);
    }

    /** DELETE /notifications/:id/delete: 200 whether or not the id names a row. */
    method Delete(id: int, dbFails: bool) returns (r: Reply)
      requires Valid()
      modifies this`rows
      ensures Valid()
      ensures dbFails ==> r == Status(SERVER_ERROR) && rows == old(rows)
      ensures !dbFails ==> r == Status(OK) && rows == RemoveId(old(rows), id) && !HasId(rows, id)
    {
      if dbFails {
        return Status(SERVER_ERROR);
      }
      RemoveIdWellFormed(rows, nextId, id);
      rows := RemoveId(rows, id);
      r := Status(OK);
    }
  }
}
