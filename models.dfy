// The recipe model of the ice-cream stand game (first_app/Models.swift):
// containers, flavors, toppings, the in-progress build a stand holds, and
// the orders and customers the session engine queues.

module Models {

  datatype Option<T> = None | Some(value: T)

  /** IceCreamBaseType: the container, which fixes how many scoops a build holds. */
  datatype BaseType = SingleCone | DoubleCone | Bowl

  const AllBaseTypes: seq<BaseType> := [SingleCone, DoubleCone, Bowl]

  /** allowedScoops: one scoop in a single cone, two in a double cone, three in a bowl. */
  function AllowedScoops(b: BaseType): (n: nat)
    ensures 1 <= n <= |AllBaseTypes|
    ensures AllBaseTypes[n - 1] == b
  {
    match b
    case SingleCone => 1
    case DoubleCone => 2
    case Bowl => 3
  }

  /** Two containers allow the same number of scoops only if they are the same container. */
  lemma AllowedScoopsIdentifiesBase(a: BaseType, b: BaseType)
    ensures AllowedScoops(a) == AllowedScoops(b) <==> a == b
  {
  }

  datatype Flavor = Strawberry | Guava | Chocolate

  datatype Topping = Sprinkles | Stick | Cherry

  const AllToppings: seq<Topping> := [Sprinkles, Stick, Cherry]

  /** The scoops kept when a container is chosen: at most the first n. */
  function Prefix(scoops: seq<Flavor>, n: nat): (r: seq<Flavor>)
    ensures r <= scoops
    ensures |r| == if |scoops| <= n then |scoops| else n
  {
    if |scoops| > n then scoops[..n] else scoops
  }

  /** The topping set after one toggle of topping t. */
  function Toggled(toppings: set<Topping>, t: Topping): (r: set<Topping>)
    ensures t in r <==> t !in toppings
    ensures forall u :: u != t ==> (u in r <==> u in toppings)
  {
    if t in toppings then toppings - {t} else toppings + {t}
  }

  /** Toggling the same topping twice restores the original set. */
  lemma ToggledTwice(toppings: set<Topping>, t: Topping)
    ensures Toggled(Toggled(toppings, t), t) == toppings
  {
  }

  /**
   * IceCreamBuild: the item under construction on one stand. The container
   * is set once, scoops are only appended (up to the container's capacity)
   * and toppings toggle freely. Its identity is the object itself.
   */
  class IceCreamBuild {
    var base: Option<BaseType>
    var scoops: seq<Flavor>
    var toppings: set<Topping>

    /** IceCreamBuild(): no container, no scoops, no toppings. */
    constructor ()
      ensures IsEmpty()
    {
      base := None;
      scoops := [];
      toppings := {};
    }

    predicate IsEmpty()
      reads this
    {
      base == None && scoops == [] && toppings == {}
    }

    /** The scoop list respects the container's capacity (vacuously while no container is chosen). */
    predicate WithinCapacity()
      reads this
    {
      base.Some? ==> |scoops| <= AllowedScoops(base.value)
    }

    /** isComplete: a container is chosen and holds exactly as many scoops as it allows. */
    predicate IsComplete()
      reads this
      ensures IsComplete() <==> base.Some? && |scoops| == AllowedScoops(base.value)
      ensures IsComplete() ==> WithinCapacity()
    {
      match base
      case None => false
      case Some(b) => |scoops| == AllowedScoops(b)
    }

    /** setBaseIfEmpty: the container can be chosen only once; choosing it drops scoops beyond its capacity. */
    method SetBaseIfEmpty(newBase: BaseType)
      modifies this
      ensures old(base).Some? ==> unchanged(this)
      ensures old(base).None? ==>
                base == Some(newBase) &&
                scoops == Prefix(old(scoops), AllowedScoops(newBase)) &&
                toppings == old(toppings)
      ensures old(base).None? ==> WithinCapacity()
      ensures old(WithinCapacity()) ==> WithinCapacity()
    {
      if base != None {
        return;
      }
      base := Some(newBase);
      if |scoops| > AllowedScoops(newBase) {
        scoops := scoops[..AllowedScoops(newBase)];
      }
    }

    /** addScoopIfPossible: appends one scoop when a container is chosen and is not yet full. */
    method AddScoopIfPossible(flavor: Flavor)
      modifies this
      ensures old(base).None? ==> unchanged(this)
      ensures old(base).Some? && |old(scoops)| >= AllowedScoops(old(base).value) ==> unchanged(this)
      ensures old(base).Some? && |old(scoops)| < AllowedScoops(old(base).value) ==>
                base == old(base) && scoops == old(scoops) + [flavor] && toppings == old(toppings)
      ensures old(IsComplete()) ==> unchanged(this)
      ensures old(WithinCapacity()) ==> WithinCapacity()
    {
      if base == None {
        return;
      }
      if |scoops| >= AllowedScoops(base.value) {
        return;
      }
      scoops := scoops + [flavor];
    }

    /** toggle(topping:): flips the presence of one topping, whatever the container and scoops. */
    method Toggle(topping: Topping)
      modifies this
      ensures toppings == Toggled(old(toppings), topping)
      ensures base == old(base) && scoops == old(scoops)
      ensures old(WithinCapacity()) ==> WithinCapacity()
    {
      if topping in toppings {
        toppings := toppings - {topping};
      } else {
        toppings := toppings + {topping};
      }
    }
  }

  /** A client of the build: toggling one topping twice leaves the build as it was. */
  method ToggleTwice(b: IceCreamBuild, t: Topping)
    modifies b
    ensures b.base == old(b.base) && b.scoops == old(b.scoops) && b.toppings == old(b.toppings)
  {
    b.Toggle(t);
    b.Toggle(t);
    ToggledTwice(old(b.toppings), t);
  }

  /** Order: what a customer wants; never changed once made. Durations are whole seconds. */
  datatype Order = Order(base: BaseType, scoops: seq<Flavor>, toppings: set<Topping>, duration: int)

  /** Customer: a queued customer with its order and its own countdown. */
  datatype Customer = Customer(id: nat, order: Order, remaining: int, avatar: nat)

  /** Customer(order:): the countdown starts at the order's duration; the avatar is drawn from 1...13. */
  function NewCustomer(id: nat, order: Order, avatar: nat): (c: Customer)
    requires 1 <= avatar <= 13
    ensures c.id == id && c.order == order && c.avatar == avatar
    ensures c.remaining == order.duration
    ensures IsExpired(c) <==> order.duration <= 0
  {
    Customer(id, order, order.duration, avatar)
  }

  /** isExpired: the customer's countdown has run out. */
  predicate IsExpired(c: Customer)
    ensures IsExpired(c) <==> c.remaining <= 0
    ensures !IsExpired(c) ==> c.remaining >= 1
  {
    c.remaining <= 0
  }
}
