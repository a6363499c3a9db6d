/** The cart context of frontend/src/contexts/CartContext.jsx: the shape the
    cart items are given on arrival from the server, and the `cart` state
    that `loadCart`, `addToCart` and `removeFromCart` keep. */
module Cart {
  import opened Wrappers
  import opened Text
  import opened JsValue

  /** The placeholder `"—"` (an em dash) for a missing text field. */
  const Dash: string := "\U{2014}"

  /** One element of `cart`, with its snake-case keys. */
  datatype CartItem = CartItem(
    id: Scalar, slotId: Scalar, classDate: Scalar, addedAt: Scalar,
    groupType: Scalar, startTime: Scalar, endTime: Scalar,
    priceCents: Scalar, capacity: Scalar)

  /** The mapper of `normalizeCartItems` applied to one server item. */
  function NormalizeCartItem(e: Element): (r: CartItem)
    ensures r.id == Prop(e, "id") && r.slotId == Prop(e, "slotId")
    ensures r.classDate == Prop(e, "classDate") && r.addedAt == Prop(e, "addedAt")
    ensures Present(r.groupType) && Present(r.startTime) && Present(r.endTime)
    ensures !r.priceCents.Undefined? && !r.capacity.Undefined?
    ensures Present(Prop(e, "groupType")) ==> r.groupType == Prop(e, "groupType")
    ensures !Present(Prop(e, "groupType")) ==> r.groupType == Str(Dash)
    ensures Present(Prop(e, "startTime")) ==> r.startTime == Prop(e, "startTime")
    ensures !Present(Prop(e, "startTime")) ==> r.startTime == Str(Dash)
    ensures Present(Prop(e, "endTime")) ==> r.endTime == Prop(e, "endTime")
    ensures !Present(Prop(e, "endTime")) ==> r.endTime == Str(Dash)
    ensures Present(Prop(e, "priceCents")) ==> r.priceCents == Prop(e, "priceCents")
    ensures !Present(Prop(e, "priceCents")) ==> r.priceCents == Null
    ensures Present(Prop(e, "capacity")) ==> r.capacity == Prop(e, "capacity")
    ensures !Present(Prop(e, "capacity")) ==> r.capacity == Null
  {
    CartItem(
      Prop(e, "id"), Prop(e, "slotId"), Prop(e, "classDate"), Prop(e, "addedAt"),
      Coalesce(Prop(e, "groupType"), Str(Dash)),
      Coalesce(Prop(e, "startTime"), Str(Dash)),
      Coalesce(Prop(e, "endTime"), Str(Dash)),
      Coalesce(Prop(e, "priceCents"), Null),
      Coalesce(Prop(e, "capacity"), Null))
  }

  /** `normalizeCartItems(items)`: every item mapped, in order; None when
      reading a property of some item throws (it is `null` or `undefined`). */
  function NormalizeCartItems(items: seq<Element>): (r: Option<seq<CartItem>>)
    ensures r.Some? <==> forall i :: 0 <= i < |items| ==> PropertyReadable(items[i])
    ensures r.Some? ==> |r.value| == |items|
    ensures r.Some? ==> forall i :: 0 <= i < |items| ==> r.value[i] == NormalizeCartItem(items[i])
  {
    if items == [] then Some([])
    else if !PropertyReadable(items[0]) then None
    else
      match NormalizeCartItems(items[1..])
      case None => None
      case Some(rest) => Some([NormalizeCartItem(items[0])] + rest)
  }

  /** The server's camel-case record for a cart item. */
  function ServerRecord(c: CartItem): Element {
    Record(map[
      "id" := c.id, "slotId" := c.slotId, "classDate" := c.classDate, "addedAt" := c.addedAt,
      "groupType" := c.groupType, "startTime" := c.startTime, "endTime" := c.endTime,
      "priceCents" := c.priceCents, "capacity" := c.capacity])
  }

  /** The items `normalizeCartItems` can produce are exactly those whose text
      fields are present and whose number fields are not `undefined`, and
      each of them comes back from its own server record unchanged. */
  lemma NormalizeCartItemRoundTrip(c: CartItem)
    requires Present(c.groupType) && Present(c.startTime) && Present(c.endTime)
    requires !c.priceCents.Undefined? && !c.capacity.Undefined?
    ensures NormalizeCartItem(ServerRecord(c)) == c
  {
  }

  /** Normalising a whole list of server records gives back the list. */
  lemma {:induction false} NormalizeCartItemsRoundTrip(cs: seq<CartItem>)
    requires forall i :: 0 <= i < |cs| ==> Present(cs[i].groupType) && Present(cs[i].startTime) && Present(cs[i].endTime)
    requires forall i :: 0 <= i < |cs| ==> !cs[i].priceCents.Undefined? && !cs[i].capacity.Undefined?
    ensures NormalizeCartItems(seq(|cs|, i requires 0 <= i < |cs| => ServerRecord(cs[i]))) == Some(cs)
  {
    var items := seq(|cs|, i requires 0 <= i < |cs| => ServerRecord(cs[i]));
    forall i | 0 <= i < |cs|
      ensures NormalizeCartItem(items[i]) == cs[i]
    {
      NormalizeCartItemRoundTrip(cs[i]);
    }
    assert forall i :: 0 <= i < |items| ==> PropertyReadable(items[i]);
    var r := NormalizeCartItems(items).value;
    assert r == cs;
  }

  /** `cart` after `loadCart` has had `reply` to its GET: replaced by the
      normalised items when the body is an array and every item can be
      read, unchanged when the request failed, the body is not an array or
      the mapping threw. */
  function CartAfterGet(cart: seq<CartItem>, reply: Response): (r: seq<CartItem>)
    ensures reply.Ok? && reply.body.ArrayBody? && NormalizeCartItems(reply.body.elems).Some? ==>
      |r| == |reply.body.elems| &&
      forall i :: 0 <= i < |r| ==> r[i] == NormalizeCartItem(reply.body.elems[i])
    ensures !(reply.Ok? && reply.body.ArrayBody? && NormalizeCartItems(reply.body.elems).Some?) ==> r == cart
  {
    match reply
    case Failed(_) => cart
    case Ok(OtherBody) => cart
    case Ok(ArrayBody(items)) =>
      match NormalizeCartItems(items)
      case None => cart
      case Some(normalized) => normalized
  }

  /** Two loads with the same readable array reply give the same cart,
      whatever the cart was before. */
  lemma CartAfterGetForgetsOldCart(a: seq<CartItem>, b: seq<CartItem>, reply: Response)
    requires reply.Ok? && reply.body.ArrayBody?
    requires forall i :: 0 <= i < |reply.body.elems| ==> PropertyReadable(reply.body.elems[i])
    ensures CartAfterGet(a, reply) == CartAfterGet(b, reply)
  {
  }

  /** The body `{ slot_id, class_date }` of a POST to `/api/cart`. */
  datatype CartPost = CartPost(slotId: Scalar, classDate: string)

  /** The requests the cart context sends. */
  datatype Request = GetCart | PostCart(body: CartPost) | DeleteCart(path: string)

  /** The path `/api/cart/${id}` of a DELETE: the collection path followed by
      the id as a string, from which a numeric id reads back. */
  function DeletePath(id: Scalar): (r: string)
    ensures |r| >= 10 && r[..10] == "/api/cart/" && r[10..] == ToJsString(id)
    ensures id.Num? ==> ParseNumber(r[10..]) == Some(id.n)
  {
    var r := "/api/cart/" + ToJsString(id);
    assert r[10..] == ToJsString(id);
    if id.Num? then ParseNumberOfDecimal(id.n); r else r
  }

  /** Two ids give the same DELETE path exactly when they print the same,
      so a DELETE reaches only the item whose id it was given. */
  lemma DeletePathInjective(a: Scalar, b: Scalar)
    ensures DeletePath(a) == DeletePath(b) <==> ToJsString(a) == ToJsString(b)
  {
    if DeletePath(a) == DeletePath(b) {
      assert DeletePath(a)[10..] == DeletePath(b)[10..];
    }
  }

  /** What `localStorage.getItem` returns: the stored string, or `null`. */
  function TokenValue(stored: Option<string>): Scalar {
    match stored
    case None => Null
    case Some(s) => Str(s)
  }

  /** `!!token`: the stored token is truthy, so a missing (`null`) token
      and the empty string both fail the guard. */
  predicate HasToken(stored: Option<string>)
    ensures HasToken(stored) <==> Truthy(TokenValue(stored))
  {
    stored.Some? && stored.value != ""
  }

  /** The provider's state. The stored access token (`localStorage`) and the
      server's replies are parameters of the operations; each operation
      returns the requests it sent, in order. */
  class CartStore {
    var cart: seq<CartItem>

    /** `useState([])`. */
    constructor()
      ensures cart == []
    {
      cart := [];
    }

    /** `loadCart`: without a token nothing is sent; otherwise one GET, and
        the cart takes the reply as `CartAfterGet` says. Errors are
        swallowed. */
    method LoadCart(stored: Option<string>, reply: Response) returns (sent: seq<Request>)
      modifies this
      ensures !HasToken(stored) ==> sent == [] && cart == old(cart)
      ensures HasToken(stored) ==> sent == [GetCart] && cart == CartAfterGet(old(cart), reply)
    {
      if !HasToken(stored) {
        return [];
      }
      sent := [GetCart];
      if reply.Ok? && reply.body.ArrayBody? {
        var normalized := NormalizeCartItems(reply.body.elems);
        if normalized.Some? {
          cart := normalized.value;
        }
      }
    }

    /** `addToCart(item)`: without a token nothing is sent; otherwise the
        POST, and when it succeeds a reload. A failed POST leaves the cart
        as it was; the operation never reports failure to its caller. */
    method AddToCart(stored: Option<string>, item: CartPost, postReply: Response, getReply: Response)
      returns (sent: seq<Request>)
      modifies this
      ensures !HasToken(stored) ==> sent == [] && cart == old(cart)
      ensures HasToken(stored) && postReply.Failed? ==> sent == [PostCart(item)] && cart == old(cart)
      ensures HasToken(stored) && postReply.Ok? ==>
        sent == [PostCart(item), GetCart] && cart == CartAfterGet(old(cart), getReply)
    {
      if !HasToken(stored) {
        return [];
      }
      sent := [PostCart(item)];
      if postReply.Ok? {
        var reload := LoadCart(stored, getReply);
        sent := sent + reload;
      }
    }

    /** The same, also saying whether the item was added: the outcome the
        calendar needs to choose its notification. */
    method AddToCartReported(stored: Option<string>, item: CartPost, postReply: Response, getReply: Response)
      returns (sent: seq<Request>, added: bool)
      modifies this
      ensures added <==> HasToken(stored) && postReply.Ok?
      ensures !HasToken(stored) ==> sent == [] && cart == old(cart)
      ensures HasToken(stored) && postReply.Failed? ==> sent == [PostCart(item)] && cart == old(cart)
      ensures HasToken(stored) && postReply.Ok? ==>
        sent == [PostCart(item), GetCart] && cart == CartAfterGet(old(cart), getReply)
    {
      sent := AddToCart(stored, item, postReply, getReply);
      added := HasToken(stored) && postReply.Ok?;
    }

    /** `removeFromCart(id)`: without a token nothing is sent; otherwise the
        DELETE of `/api/cart/${id}`, and when it succeeds a reload. */
    method RemoveFromCart(stored: Option<string>, id: Scalar, deleteReply: Response, getReply: Response)
      returns (sent: seq<Request>)
      modifies this
      ensures !HasToken(stored) ==> sent == [] && cart == old(cart)
      ensures HasToken(stored) && deleteReply.Failed? ==> sent == [DeleteCart(DeletePath(id))] && cart == old(cart)
      ensures HasToken(stored) && deleteReply.Ok? ==>
        sent == [DeleteCart(DeletePath(id)), GetCart] && cart == CartAfterGet(old(cart), getReply)
    {
      if !HasToken(stored) {
        return [];
      }
      sent := [DeleteCart(DeletePath(id))];
      if deleteReply.Ok? {
        var reload := LoadCart(stored, getReply);
        sent := sent + reload;
      }
    }
  }
}
