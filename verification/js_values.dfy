/** JavaScript values as the URL-redirect library handles them: an argument or a
    record field can be undefined, null, or hold a value. */
module JsValues {

  datatype Js<+T> = Undefined | Null | Val(value: T)
  {
    /** `Lib.Utils.isNullOrUndefined` */
    predicate IsNullOrUndefined() {
      Undefined? || Null?
    }
  }

  datatype Option<+T> = None | Some(value: T)

  /** Opaque payload stored beside a short URL; the library never looks inside. */
  type SupplementaryData = map<string, string>

  /** `Lib.Utils.fallback(v)`: undefined becomes null, anything else is kept. */
  function Fallback<T>(v: Js<T>): (r: Js<T>)
    ensures !r.Undefined?
    ensures v.Undefined? ==> r == Null
    ensures !v.Undefined? ==> r == v
  {
    if v.Undefined? then Null else v
  }

  /** Reading an attribute of a storage record: an absent attribute reads as undefined. */
  function Attr<T>(o: Option<T>): (r: Js<T>)
    ensures r.Undefined? <==> o.None?
    ensures o.Some? ==> r == Val(o.value)
  {
    match o
    case None => Undefined
    case Some(v) => Val(v)
  }

  /** How `Array.prototype.join` renders one element: null and undefined as "". */
  function Render(v: Js<string>): string {
    if v.Val? then v.value else ""
  }

  /** `Lib.Utils.isEmpty` on a string: null, undefined or "". */
  predicate EmptyString(v: Js<string>) {
    v.IsNullOrUndefined() || v.value == ""
  }

  /** `Lib.Utils.isEmpty` on a number: only null and undefined (0 is not empty). */
  predicate EmptyNumber(v: Js<int>) {
    v.IsNullOrUndefined()
  }

  /** `Lib.Utils.isEmpty` on an object: null, undefined or an object without keys. */
  predicate EmptyObject(v: Js<SupplementaryData>) {
    v.IsNullOrUndefined() || |v.value| == 0
  }

  /** The value of a field that `Lib.Utils.isEmpty` does not reject, as a present attribute. */
  function NonEmptyString(v: Js<string>): (o: Option<string>)
    ensures o.Some? <==> !EmptyString(v)
    ensures o.Some? ==> o.value == v.value && o.value != ""
  {
    if EmptyString(v) then None else Some(v.value)
  }

  function NonEmptyNumber(v: Js<int>): (o: Option<int>)
    ensures o.Some? <==> !EmptyNumber(v)
    ensures o.Some? ==> o.value == v.value
  {
    if EmptyNumber(v) then None else Some(v.value)
  }

  function NonEmptyObject(v: Js<SupplementaryData>): (o: Option<SupplementaryData>)
    ensures o.Some? <==> !EmptyObject(v)
    ensures o.Some? ==> o.value == v.value && |o.value| > 0
  {
    if EmptyObject(v) then None else Some(v.value)
  }
}
