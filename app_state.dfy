/** The top-level application state: the appointment ledger and the shopping cart, and
    the four updaters the views call. */
module AppState {
  import opened Records
  import opened Lists

  /** handleCancelAppointment's `map`: every record with `id` becomes Cancelled. */
  function CancelEvery(s: seq<Appointment>, id: string): (r: seq<Appointment>)
  {
    seq(|s|, i requires 0 <= i < |s| => if s[i].id == id then s[i].(status := Cancelled) else s[i])
  }

  function NotWithId(id: string): CartItem -> bool
  {
    (item: CartItem) => item.id != id
  }

  /** removeFromCart's `filter`: the items whose id differs from `id`. */
  function WithoutItem(cart: seq<CartItem>, id: string): seq<CartItem>
  {
    Filter(cart, NotWithId(id))
  }

  class App {
    var appointments: seq<Appointment>
    var cart: seq<CartItem>

    /** The ledger starts as the seed list and the cart empty. */
    constructor ()
      ensures appointments == SeedAppointments && cart == []
    {
      appointments := SeedAppointments;
      cart := [];
    }

    method AddToCart(item: CartItem)
      modifies this
      ensures cart == old(cart) + [item] && appointments == old(appointments)
    {
      cart := cart + [item];
    }

    method RemoveFromCart(id: string)
      modifies this
      ensures cart == WithoutItem(old(cart), id) && appointments == old(appointments)
    {
      cart := WithoutItem(cart, id);
    }

    method AddAppointment(appointment: Appointment)
      modifies this
      ensures appointments == old(appointments) + [appointment] && cart == old(cart)
    {
      appointments := appointments + [appointment];
    }

    method CancelAppointment(id: string)
      modifies this
      ensures appointments == CancelEvery(old(appointments), id) && cart == old(cart)
    {
      appointments := CancelEvery(appointments, id);
    }
  }

  /** Cancelling keeps the length, marks every record with the id Cancelled whatever its
      status (a Completed one included), and leaves every other record as it was. */
  lemma CancelEveryEffect(s: seq<Appointment>, id: string)
    ensures |CancelEvery(s, id)| == |s|
    ensures forall i :: 0 <= i < |s| && s[i].id == id ==>
      CancelEvery(s, id)[i].status == Cancelled && CancelEvery(s, id)[i] == s[i].(status := Cancelled)
    ensures forall i :: 0 <= i < |s| && s[i].id != id ==> CancelEvery(s, id)[i] == s[i]
  {
  }

  /** An unknown id changes nothing. */
  lemma CancelUnknownIsNoOp(s: seq<Appointment>, id: string)
    requires forall i :: 0 <= i < |s| ==> s[i].id != id
    ensures CancelEvery(s, id) == s
  {
  }

  /** Cancelling twice is cancelling once. */
  lemma CancelTwiceIsOnce(s: seq<Appointment>, id: string)
    ensures CancelEvery(CancelEvery(s, id), id) == CancelEvery(s, id)
  {
  }

  /** A completed seed appointment can still be cancelled. */
  lemma CompletedCanBeCancelled()
    ensures CancelEvery(SeedAppointments, "a3")[2].status == Cancelled
    ensures SeedAppointments[2].status == Completed
  {
  }

  /** After removal no item has the id; every other item stays, in the same order. */
  lemma WithoutItemEffect(cart: seq<CartItem>, id: string)
    ensures forall x :: x in WithoutItem(cart, id) ==> x.id != id && x in cart
    ensures forall x :: x in cart && x.id != id ==> x in WithoutItem(cart, id)
    ensures forall a, b :: cart == a + b ==> WithoutItem(cart, id) == WithoutItem(a, id) + WithoutItem(b, id)
  {
    forall a, b | cart == a + b ensures WithoutItem(cart, id) == WithoutItem(a, id) + WithoutItem(b, id) {
      FilterAppend(a, b, NotWithId(id));
    }
  }

  /** Removing an id that is in the cart once drops exactly that item. */
  lemma RemoveSingleItem(cart: seq<CartItem>, id: string, i: nat)
    requires i < |cart| && cart[i].id == id
    requires forall j :: 0 <= j < |cart| && j != i ==> cart[j].id != id
    ensures WithoutItem(cart, id) == cart[..i] + cart[i + 1..]
  {
    FilterDropsOne(cart, NotWithId(id), i);
  }

  /** Removing twice is removing once. */
  lemma RemoveTwiceIsOnce(cart: seq<CartItem>, id: string)
    ensures WithoutItem(WithoutItem(cart, id), id) == WithoutItem(cart, id)
  {
    FilterIdempotent(cart, NotWithId(id));
  }
}
