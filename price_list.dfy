/** The price list behind BackEnd/pricelistRoutes.js: a JSON file holding
    an array of price entries, served as it is, of which the first entry
    carries the discount the administrator sets. */
module PriceList {
  import opened Wrappers
  import opened Http
  import opened JsValues

  const DISCOUNT_KEY: string := "Discount"

  /** What reading Price.json yields: the read fails, the text is not JSON,
      or the parsed value. The file holds what JSON.stringify wrote, which
      parses back to the value written. */
  datatype PriceFile = Unreadable | Malformed | Parsed(json: JsValue)

  /** `entry.Discount = d` on a parsed JSON value, as the file will see it
      after JSON.stringify. An object gets the field (added or replaced).
      On an array the property is set but JSON.stringify writes only the
      elements, so the array comes out as it was. Setting a property of
      null, or of a primitive in a module (strict mode), throws (None). */
  function WithDiscount(entry: JsValue, d: real): (r: Option<JsValue>)
    ensures r.Some? <==> entry.Obj? || entry.Arr?
    ensures entry.Obj? ==> r == Some(Obj(entry.fields[DISCOUNT_KEY := Num(d)]))
    ensures entry.Arr? ==> r == Some(entry)
  {
    match entry
    case Obj(f) => Some(Obj(f[DISCOUNT_KEY := Num(d)]))
    case Arr(_) => Some(entry)
    case _ => None
  }

  /** The discount an entry shows: its `Discount` field when it is an
      object that has one. */
  function DiscountOf(entry: JsValue): (r: Option<JsValue>)
    ensures r.Some? <==> entry.Obj? && DISCOUNT_KEY in entry.fields
  {
    if entry.Obj? && DISCOUNT_KEY in entry.fields then Some(entry.fields[DISCOUNT_KEY]) else None
  }

  /** What PUT /update-discount-Pricelist answers and leaves in the file,
      given the request's Discount, the file and whether the write fails. */
  function UpdateOutcome(file: PriceFile, discount: JsValue, writeFails: bool): (out: (Reply, PriceFile))
    ensures !IsNumber(discount) ==> out == (Status(BAD_REQUEST), file)
    ensures IsNumber(discount) && (file.Unreadable? || file.Malformed?) ==> out == (Status(SERVER_ERROR), file)
    ensures IsNumber(discount) && file.Parsed? && !(file.json.Arr? && |file.json.elems| > 0) ==>
              out == (Status(BAD_REQUEST), file)
    ensures out.0 != Status(OK) ==> out.1 == file
    ensures out.0 == Status(OK) <==>
              && IsNumber(discount) && file.Parsed? && file.json.Arr? && |file.json.elems| > 0
              && WithDiscount(file.json.elems[0], discount.n).Some? && !writeFails
    ensures out.0 == Status(OK) ==>
              var es := file.json.elems;
              out.1.Parsed? && out.1.json.Arr?
              && |out.1.json.elems| == |es|
              && out.1.json.elems[0] == WithDiscount(es[0], discount.n).value
              && forall k :: 1 <= k < |es| ==> out.1.json.elems[k] == es[k]
  {
    if !IsNumber(discount) then (Status(BAD_REQUEST), file)
    else match file
      case Unreadable => (Status(SERVER_ERROR), file)
      case Malformed => (Status(SERVER_ERROR), file)
      case Parsed(v) =>
        if !v.Arr? || |v.elems| == 0 then (Status(BAD_REQUEST), file)
        else match WithDiscount(v.elems[0], discount.n)
          case None => (Uncaught, file)
          case Some(first) =>
            if writeFails then (Status(SERVER_ERROR), file)
            else (Status(OK), Parsed(Arr([first] + v.elems[1..])))
  }

  /** After a successful update whose first entry is an object, the first
      entry shows the new discount and keeps every other field. */
  lemma UpdateSetsFirstDiscount(file: PriceFile, discount: JsValue)
    requires UpdateOutcome(file, discount, false).0 == Status(OK)
    requires file.json.elems[0].Obj?
    ensures var after := UpdateOutcome(file, discount, false).1.json.elems[0];
            && DiscountOf(after) == Some(discount)
            && forall key :: key in file.json.elems[0].fields && key != DISCOUNT_KEY ==>
                 key in after.fields && after.fields[key] == file.json.elems[0].fields[key]
  {
  }

  /** Setting the same discount twice leaves the file as setting it once. */
  lemma UpdateIdempotent(file: PriceFile, discount: JsValue)
    requires UpdateOutcome(file, discount, false).0 == Status(OK)
    ensures var once := UpdateOutcome(file, discount, false).1;
            UpdateOutcome(once, discount, false) == (Status(OK), once)
  {
    var es := file.json.elems;
    var once := UpdateOutcome(file, discount, false).1;
    var es' := once.json.elems;
    assert WithDiscount(es'[0], discount.n) == Some(es'[0]) by {
      if es[0].Obj? {
        assert es[0].fields[DISCOUNT_KEY := discount][DISCOUNT_KEY := discount]
               == es[0].fields[DISCOUNT_KEY := discount];
      }
    }
    assert [es'[0]] + es'[1..] == es';
  }

  /** A later discount replaces an earlier one: the file then looks as if
      only the later one had been set. */
  lemma LaterDiscountWins(file: PriceFile, d1: JsValue, d2: JsValue)
    requires UpdateOutcome(file, d1, false).0 == Status(OK) && IsNumber(d2)
    ensures UpdateOutcome(UpdateOutcome(file, d1, false).1, d2, false) == UpdateOutcome(file, d2, false)
  {
    var es := file.json.elems;
    var once := UpdateOutcome(file, d1, false).1;
    var es' := once.json.elems;
    if es[0].Obj? {
      assert es[0].fields[DISCOUNT_KEY := d1][DISCOUNT_KEY := d2]
             == es[0].fields[DISCOUNT_KEY := d2];
    }
    assert es'[1..] == es[1..];
  }

  /** Price.json on disk. */
  class PriceListFile {
    var content: PriceFile

    constructor (initial: PriceFile)
      ensures content == initial
    {
      content := initial;
    }

    /** GET /price: the parsed file, or 500 when it cannot be read or parsed. */
    method Read() returns (r: Reply, body: Option<JsValue>)
      ensures content.Parsed? ==> r == Status(OK) && body == Some(content.json)
      ensures !content.Parsed? ==> r == Status(SERVER_ERROR) && body.None?
    {
      if content.Parsed? {
        r, body := Status(OK), Some(content.json);
      } else {
        r, body := Status(SERVER_ERROR), None;
      }
    }

    /** PUT /update-discount-Pricelist: the parsed array is changed in
        place at index 0 and written back whole; `writeFails` is a failed
        fs.writeFile, after which the file is taken to be as it was. */
    method UpdateDiscount(discount: JsValue, writeFails: bool) returns (r: Reply)
      modifies this
      ensures (r, content) == UpdateOutcome(old(content), discount, writeFails)
    {
      if !IsNumber(discount) {
        return Status(BAD_REQUEST);
      }
      if !content.Parsed? {
        return Status(SERVER_ERROR);               // read or parse error
      }
      var parsed := content.json;
      if !parsed.Arr? || |parsed.elems| == 0 {
        return Status(BAD_REQUEST);
      }
      var es := parsed.elems;
      var data := new JsValue[|es|](i requires 0 <= i < |es| => es[i]);
      var first := WithDiscount(data[0], discount.n);
      if first.None? {
        return Uncaught;                           // TypeError in the read callback
      }
      data[0] := first.value;
      if writeFails {
        return Status(SERVER_ERROR);
      }
      assert data[..] == [first.value] + es[1..];
      content := Parsed(Arr(data[..]));
      r := Status(OK);
    }
  }
}
