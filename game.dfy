// The session engine of the ice-cream stand game (first_app/GameViewModel.swift):
// order matching, the bounded customer queue with its single pending arrival,
// the one-second tick, the outcome state machine, the stand commands and the
// two delivery paths. The repeating timer and the arrival task are replaced by
// the explicit events Tick() and ArrivalFires(); random draws are parameters.

module Game {
  import opened Models

  /** totalGameDuration: two minutes, in whole seconds. */
  const TotalGameDuration: int := 120
  /** perCustomerDuration: each customer waits twenty seconds. */
  const PerCustomerDuration: int := 20
  /** maxQueueCount: at most two customers wait at once. */
  const MaxQueueCount: nat := 2
  /** The number of stands, each holding one build. */
  const StandCount: nat := 3

  function Max(a: int, b: int): (m: int)
    ensures m >= a && m >= b && (m == a || m == b)
  {
    if a >= b then a else b
  }

  // ---------------------------------------------------------------------
  // Matching (compare(build:to:))
  // ---------------------------------------------------------------------

  /**
   * Dictionary(grouping:by:).mapValues(\.count): how often each flavor
   * occurs; flavors that do not occur have no entry.
   */
  function Tally(s: seq<Flavor>): (m: map<Flavor, nat>)
    ensures forall f :: f in m <==> f in multiset(s)
    ensures forall f :: f in m ==> m[f] == multiset(s)[f]
  {
    if s == [] then map[]
    else
      var init, last := s[..|s| - 1], s[|s| - 1];
      assert s == init + [last];
      var m := Tally(init);
      m[last := if last in m then m[last] + 1 else 1]
  }

  /** Two scoop lists have equal tallies exactly when they hold the same multiset of flavors. */
  lemma TallyEqualIffSameMultiset(a: seq<Flavor>, b: seq<Flavor>)
    ensures Tally(a) == Tally(b) <==> multiset(a) == multiset(b)
  {
  }

  /**
   * compare(build:to:): a build matches an order when it has the order's
   * container, the same flavors counted per flavor (in any order) and the
   * same topping set.
   */
  function Compare(build: IceCreamBuild, order: Order): (r: bool)
    reads build
    ensures r <==> build.base == Some(order.base) &&
                   multiset(build.scoops) == multiset(order.scoops) &&
                   build.toppings == order.toppings
  {
    TallyEqualIffSameMultiset(build.scoops, order.scoops);
    match build.base
    case None => false
    case Some(b) =>
      b == order.base &&
      |build.scoops| == |order.scoops| &&
      Tally(build.scoops) == Tally(order.scoops) &&
      build.toppings == order.toppings
  }

  /** Reordering the scoops of a build never changes whether it matches. */
  lemma CompareIgnoresScoopOrder(b1: IceCreamBuild, b2: IceCreamBuild, order: Order)
    requires b1.base == b2.base && b1.toppings == b2.toppings
    requires multiset(b1.scoops) == multiset(b2.scoops)
    ensures Compare(b1, order) == Compare(b2, order)
  {
  }

  /** A build that matches an order whose scoop count fits its container is complete. */
  lemma MatchingBuildIsComplete(build: IceCreamBuild, order: Order)
    requires |order.scoops| == AllowedScoops(order.base)
    requires Compare(build, order)
    ensures build.IsComplete()
  {
  }

  /** A bowl of strawberry, strawberry, guava matches the same flavors in another order, but not a changed flavor. */
  lemma CompareBowlExample(build: IceCreamBuild)
    requires build.base == Some(Bowl)
    requires build.scoops == [Strawberry, Strawberry, Guava] && build.toppings == {Cherry}
    ensures Compare(build, Order(Bowl, [Strawberry, Guava, Strawberry], {Cherry}, PerCustomerDuration))
    ensures !Compare(build, Order(Bowl, [Strawberry, Guava, Chocolate], {Cherry}, PerCustomerDuration))
  {
  }

  // ---------------------------------------------------------------------
  // Orders and arrivals (makeRandomOrder, spawnCustomer)
  // ---------------------------------------------------------------------

  function ToppingSet(s: seq<Topping>): (r: set<Topping>)
    ensures forall t :: t in r <==> t in s
  {
    set t | t in s
  }

  /** A sequence lists each topping at most once. */
  predicate Distinct(s: seq<Topping>)
  {
    forall i, j :: 0 <= i < j < |s| ==> s[i] != s[j]
  }

  /** A sequence without repetition has as many distinct toppings as elements. */
  lemma {:induction false} DistinctToppingCount(s: seq<Topping>)
    requires Distinct(s)
    ensures |ToppingSet(s)| == |s|
  {
    if s != [] {
      var init, last := s[..|s| - 1], s[|s| - 1];
      assert Distinct(init);
      DistinctToppingCount(init);
      assert ToppingSet(s) == ToppingSet(init) + {last};
      assert last !in ToppingSet(init);
    }
  }

  /**
   * The random draws behind one arrival: the container, one flavor per
   * allowed scoop, the number of toppings (0...3), the shuffled topping
   * list, the customer's id and the avatar number (1...13).
   */
  datatype Arrival = Arrival(base: BaseType, flavors: seq<Flavor>, toppingCount: nat,
                             shuffled: seq<Topping>, customerId: nat, avatar: nat)

  predicate ValidArrival(a: Arrival)
  {
    && |a.flavors| == AllowedScoops(a.base)
    && a.toppingCount <= |AllToppings|
    && |a.shuffled| == |AllToppings| && Distinct(a.shuffled)
    && 1 <= a.avatar <= 13
  }

  /**
   * makeRandomOrder: an order whose scoop count is its container's capacity,
   * whose topping set has exactly the drawn number of toppings, and which
   * lasts perCustomerDuration.
   */
  function MakeRandomOrder(a: Arrival): (o: Order)
    requires ValidArrival(a)
    ensures o.base == a.base && |o.scoops| == AllowedScoops(o.base)
    ensures o.scoops == a.flavors
    ensures |o.toppings| == a.toppingCount <= 3
    ensures o.toppings == ToppingSet(a.shuffled[..a.toppingCount])
    ensures o.duration == PerCustomerDuration
  {
    var tops := a.shuffled[..a.toppingCount];
    assert Distinct(tops);
    DistinctToppingCount(tops);
    Order(a.base, a.flavors, ToppingSet(tops), PerCustomerDuration)
  }

  /** Customer(order: makeRandomOrder()): the customer an arrival adds to the queue. */
  function Spawned(a: Arrival): (c: Customer)
    requires ValidArrival(a)
    ensures c.id == a.customerId && c.order == MakeRandomOrder(a)
    ensures c.remaining == PerCustomerDuration && !IsExpired(c)
  {
    NewCustomer(a.customerId, MakeRandomOrder(a), a.avatar)
  }

  // ---------------------------------------------------------------------
  // Customer countdown and eviction (the tick's customer part)
  // ---------------------------------------------------------------------

  /** One second of a customer's countdown: it drops by one while positive and stops at zero. */
  function Countdown(c: Customer): (d: Customer)
    ensures d.(remaining := c.remaining) == c
    ensures c.remaining > 0 ==> 0 <= d.remaining == c.remaining - 1
    ensures c.remaining <= 0 ==> d == c
  {
    if c.remaining > 0 then c.(remaining := c.remaining - 1) else c
  }

  /** The countdown applied to every customer of the queue, in place and in order. */
  function CountdownAll(cs: seq<Customer>): (r: seq<Customer>)
    ensures |r| == |cs|
    ensures forall i :: 0 <= i < |cs| ==> r[i] == Countdown(cs[i])
  {
    if cs == [] then [] else [Countdown(cs[0])] + CountdownAll(cs[1..])
  }

  /** A customer after k seconds. */
  function CountdownTimes(c: Customer, k: nat): (d: Customer)
    ensures d.(remaining := c.remaining) == c
  {
    if k == 0 then c else Countdown(CountdownTimes(c, k - 1))
  }

  /** A customer with r seconds left has max(r - k, 0) left after k seconds, so it expires at the r-th second. */
  lemma {:induction false} CountdownTimesRemaining(c: Customer, k: nat)
    requires c.remaining >= 0
    ensures CountdownTimes(c, k).remaining == Max(c.remaining - k, 0)
    ensures IsExpired(CountdownTimes(c, k)) <==> k >= c.remaining
  {
    if k > 0 {
      CountdownTimesRemaining(c, k - 1);
    }
  }

  /** Every waiting customer has between 1 and perCustomerDuration seconds left. */
  predicate CountdownsInRange(cs: seq<Customer>)
  {
    forall i :: 0 <= i < |cs| ==> 0 < cs[i].remaining <= PerCustomerDuration
  }

  /** A tick's countdown and eviction keep every waiting customer's countdown in range. */
  lemma TickKeepsCountdownsInRange(cs: seq<Customer>)
    requires CountdownsInRange(cs)
    ensures CountdownsInRange(RemoveExpired(CountdownAll(cs)))
  {
  }

  /** A newly arrived customer stays exactly perCustomerDuration seconds before expiring. */
  lemma SpawnedCustomerLifetime(a: Arrival, k: nat)
    requires ValidArrival(a)
    ensures IsExpired(CountdownTimes(Spawned(a), k)) <==> k >= PerCustomerDuration
  {
    CountdownTimesRemaining(Spawned(a), k);
  }

  /** removeAll { $0.isExpired }: the customers still waiting, in their order. */
  function RemoveExpired(cs: seq<Customer>): (r: seq<Customer>)
    ensures |r| <= |cs|
    ensures forall c :: c in r <==> c in cs && !IsExpired(c)
  {
    if cs == [] then []
    else (if IsExpired(cs[0]) then [] else [cs[0]]) + RemoveExpired(cs[1..])
  }

  /** Eviction keeps the queue order: it distributes over concatenation. */
  lemma {:induction false} RemoveExpiredAppend(a: seq<Customer>, b: seq<Customer>)
    ensures RemoveExpired(a + b) == RemoveExpired(a) + RemoveExpired(b)
  {
    if a == [] {
      assert a + b == b;
    } else {
      assert (a + b)[0] == a[0] && (a + b)[1..] == a[1..] + b;
      RemoveExpiredAppend(a[1..], b);
    }
  }

  /** Eviction shortens the queue exactly when some customer has expired. */
  lemma {:induction false} RemoveExpiredShrinks(cs: seq<Customer>)
    ensures |RemoveExpired(cs)| < |cs| <==> exists i :: 0 <= i < |cs| && IsExpired(cs[i])
  {
    if cs != [] {
      RemoveExpiredShrinks(cs[1..]);
      if exists i :: 0 <= i < |cs[1..]| && IsExpired(cs[1..][i]) {
        var i :| 0 <= i < |cs[1..]| && IsExpired(cs[1..][i]);
        assert IsExpired(cs[i + 1]);
      }
      if exists i :: 0 <= i < |cs| && IsExpired(cs[i]) {
        var i :| 0 <= i < |cs| && IsExpired(cs[i]);
        if i > 0 {
          assert IsExpired(cs[1..][i - 1]);
        }
      }
    }
  }

  // ---------------------------------------------------------------------
  // Queue lookups used by the two delivery paths
  // ---------------------------------------------------------------------

  /** customers.firstIndex(where: compare(build:to:)): the first waiting customer the build satisfies. */
  function FirstMatch(cs: seq<Customer>, build: IceCreamBuild): (r: Option<nat>)
    reads build
    ensures r.Some? ==> r.value < |cs| && Compare(build, cs[r.value].order)
    ensures r.Some? ==> forall j :: 0 <= j < r.value ==> !Compare(build, cs[j].order)
    ensures r.None? ==> forall j :: 0 <= j < |cs| ==> !Compare(build, cs[j].order)
  {
    if cs == [] then None
    else if Compare(build, cs[0].order) then Some(0)
    else match FirstMatch(cs[1..], build)
      case None => None
      case Some(i) => Some(i + 1)
  }

  /** customers.firstIndex(where: $0.id == customerID): the first queued customer with that id. */
  function IndexOfId(cs: seq<Customer>, id: nat): (r: Option<nat>)
    ensures r.Some? ==> r.value < |cs| && cs[r.value].id == id
    ensures r.Some? ==> forall j :: 0 <= j < r.value ==> cs[j].id != id
    ensures r.None? ==> forall j :: 0 <= j < |cs| ==> cs[j].id != id
  {
    if cs == [] then None
    else if cs[0].id == id then Some(0)
    else match IndexOfId(cs[1..], id)
      case None => None
      case Some(i) => Some(i + 1)
  }

  /**
   * The score after a failed deliverToAnyCustomer: score - max(0, score - 1).
   * Any positive score collapses to 1; a score of 0 or below stays as it is.
   */
  function MismatchScore(score: int): (r: int)
    ensures r <= 1 && r <= score
    ensures score >= 1 ==> r == 1
    ensures score < 1 ==> r == score
  {
    score - Max(0, score - 1)
  }

  /** Three fresh, empty, distinct builds: the stands of a new session. */
  method NewStands() returns (s: seq<IceCreamBuild>)
    ensures |s| == StandCount
    ensures forall i :: 0 <= i < |s| ==> fresh(s[i]) && s[i].IsEmpty() && s[i].WithinCapacity()
    ensures forall i, j :: 0 <= i < j < |s| ==> s[i] != s[j]
  {
    var s0 := new IceCreamBuild();
    var s1 := new IceCreamBuild();
    var s2 := new IceCreamBuild();
    s := [s0, s1, s2];
  }

  // ---------------------------------------------------------------------
  // The session (GameViewModel)
  // ---------------------------------------------------------------------

  class GameViewModel {
    var isGameStarted: bool
    var targetScore: int
    var isChallengeSuccess: bool
    var isChallengeFailure: bool
    var showDeliveryFeedback: bool
    var deliveryFeedbackIsSuccess: bool
    var score: int
    var remainingGameTime: int
    var customers: seq<Customer>
    var stands: seq<IceCreamBuild>
    var selectedStandIndex: Option<int>
    /** pendingSpawnTask != nil: an arrival has been scheduled and has not fired yet. */
    var pending: bool
    var isRunning: bool
    var isGameOver: bool

    /**
     * The session invariant: three distinct stands whose builds respect
     * their containers, a valid selection, at most two customers each with
     * time left, a consistent outcome, and a queue that is being refilled
     * whenever the session runs below capacity.
     */
    ghost predicate Valid()
      reads this, stands
    {
      StandsValid() && QueueValid() && OutcomeValid() && 0 <= remainingGameTime <= TotalGameDuration
    }

    /** Three distinct stands whose builds respect their containers, one of them (or none) selected. */
    ghost predicate StandsValid()
      reads this`stands, this`selectedStandIndex, stands
    {
      && |stands| == StandCount
      && (forall i, j :: 0 <= i < j < |stands| ==> stands[i] != stands[j])
      && (forall i :: 0 <= i < |stands| ==> stands[i].WithinCapacity())
      && (selectedStandIndex.Some? ==> 0 <= selectedStandIndex.value < |stands|)
    }

    /** At most two customers, each with time left, and an arrival pending whenever a running session has room. */
    ghost predicate QueueValid()
      reads this`customers, this`isRunning, this`pending
    {
      && |customers| <= MaxQueueCount
      && CountdownsInRange(customers)
      && (isRunning && |customers| < MaxQueueCount ==> pending)
    }

    /** An outcome is recorded exactly when the game is over, and a finished game neither runs nor waits for arrivals. */
    ghost predicate OutcomeValid()
      reads this`isGameOver, this`isRunning, this`pending, this`isChallengeSuccess, this`isChallengeFailure
    {
      && (isGameOver ==> !isRunning && !pending && isChallengeFailure == !isChallengeSuccess)
      && (!isGameOver ==> !isChallengeSuccess && !isChallengeFailure)
    }

    /** The stand the build commands act on. */
    function SelectedStand(): (s: set<IceCreamBuild>)
      reads this
      ensures |s| <= 1
      ensures s != {} <==> selectedStandIndex.Some? && 0 <= selectedStandIndex.value < |stands|
    {
      if selectedStandIndex.Some? && 0 <= selectedStandIndex.value < |stands|
      then {stands[selectedStandIndex.value]} else {}
    }

    /** Stand i holds a fresh empty build and every other stand is untouched. */
    twostate predicate ClearedStand(i: int)
      reads this, stands
    {
      && |stands| == |old(stands)|
      && 0 <= i < |stands|
      && fresh(stands[i]) && stands[i].IsEmpty()
      && (forall j :: 0 <= j < |stands| && j != i ==> stands[j] == old(stands[j]))
    }

    /** init(): the difficulty menu, before any game has started. */
    constructor ()
      ensures Valid()
      ensures !isGameStarted && targetScore == 0 && score == 0
      ensures remainingGameTime == TotalGameDuration && customers == []
      ensures forall i :: 0 <= i < |stands| ==> fresh(stands[i]) && stands[i].IsEmpty()
      ensures selectedStandIndex == Some(0) && !pending
      ensures !isRunning && !isGameOver && !isChallengeSuccess && !isChallengeFailure
      ensures !showDeliveryFeedback && !deliveryFeedbackIsSuccess
    {
      var s := NewStands();
      isGameStarted := false;
      targetScore := 0;
      isChallengeSuccess := false;
      isChallengeFailure := false;
      showDeliveryFeedback := false;
      deliveryFeedbackIsSuccess := false;
      score := 0;
      remainingGameTime := TotalGameDuration;
      customers := [];
      stands := s;
      selectedStandIndex := Some(0);
      pending := false;
      isRunning := false;
      isGameOver := false;
    }

    // --- outcome state machine -------------------------------------------

    /** startGame(targetScore:): records the target and starts a fresh session. */
    method StartGame(target: int, a: Arrival)
      requires ValidArrival(a)
      modifies this`targetScore, this`isGameStarted, this`score, this`remainingGameTime,
               this`stands, this`selectedStandIndex, this`customers, this`pending,
               this`isGameOver, this`isRunning, this`isChallengeSuccess, this`isChallengeFailure
      ensures Valid()
      ensures targetScore == target && isGameStarted
      ensures score == 0 && remainingGameTime == TotalGameDuration
      ensures forall i :: 0 <= i < |stands| ==> fresh(stands[i]) && stands[i].IsEmpty()
      ensures selectedStandIndex == Some(0)
      ensures customers == [Spawned(a)]
      ensures pending && isRunning && !isGameOver && !isChallengeSuccess && !isChallengeFailure
    {
      targetScore := target;
      isGameStarted := true;
      ResetGame(a);
    }

    /**
     * resetGame: score 0, full time, three empty stands with the first one
     * selected, exactly one customer, the next arrival scheduled, running.
     * A pending arrival is cancelled before the new one is scheduled.
     */
    method ResetGame(a: Arrival)
      requires ValidArrival(a)
      modifies this`score, this`remainingGameTime, this`stands, this`selectedStandIndex,
               this`customers, this`pending, this`isGameOver, this`isRunning,
               this`isChallengeSuccess, this`isChallengeFailure
      ensures Valid()
      ensures score == 0 && remainingGameTime == TotalGameDuration
      ensures forall i :: 0 <= i < |stands| ==> fresh(stands[i]) && stands[i].IsEmpty()
      ensures selectedStandIndex == Some(0)
      ensures customers == [Spawned(a)]
      ensures pending && isRunning && !isGameOver && !isChallengeSuccess && !isChallengeFailure
    {
      score := 0;
      remainingGameTime := TotalGameDuration;
      stands := NewStands();
      selectedStandIndex := Some(0);
      customers := [];
      pending := false;
      isGameOver := false;
      isRunning := true;
      isChallengeSuccess := false;
      isChallengeFailure := false;
      SpawnCustomer(a);
      ScheduleNextCustomerIfNeeded();
    }

    /**
     * backToMainMenu: stops the session and clears score, time, queue and
     * stands. It leaves the target, the selection and any pending arrival as
     * they are.
     */
    method BackToMainMenu()
      requires Valid()
      modifies this`isGameStarted, this`isRunning, this`isGameOver, this`score,
               this`remainingGameTime, this`customers, this`stands,
               this`isChallengeSuccess, this`isChallengeFailure
      ensures Valid()
      ensures !isGameStarted && !isRunning && !isGameOver
      ensures score == 0 && remainingGameTime == TotalGameDuration && customers == []
      ensures forall i :: 0 <= i < |stands| ==> fresh(stands[i]) && stands[i].IsEmpty()
      ensures !isChallengeSuccess && !isChallengeFailure
    {
      isGameStarted := false;
      isRunning := false;
      isGameOver := false;
      score := 0;
      remainingGameTime := TotalGameDuration;
      customers := [];
      stands := NewStands();
      isChallengeSuccess := false;
      isChallengeFailure := false;
    }

    /** The game is over with the given outcome: nothing runs and no arrival is pending. */
    predicate Ended(success: bool)
      reads this`isRunning, this`isGameOver, this`pending, this`isChallengeSuccess, this`isChallengeFailure
    {
      !isRunning && isGameOver && !pending && isChallengeSuccess == success && isChallengeFailure == !success
    }

    /**
     * endGame(success:): the first call stops the session, cancels the
     * pending arrival and records the outcome; later calls change nothing.
     */
    method EndGame(success: bool)
      modifies this`isRunning, this`isGameOver, this`pending,
               this`isChallengeSuccess, this`isChallengeFailure
      ensures old(isGameOver) ==> unchanged(this)
      ensures !old(isGameOver) ==> Ended(success)
    {
      if isGameOver {
        return;
      }
      isRunning := false;
      isGameOver := true;
      pending := false;
      isChallengeSuccess := success;
      isChallengeFailure := !success;
    }

    // --- customer queue ----------------------------------------------------

    /** spawnCustomer: appends one new customer unless the queue is full. */
    method SpawnCustomer(a: Arrival)
      requires ValidArrival(a)
      modifies this`customers
      ensures |old(customers)| >= MaxQueueCount ==> customers == old(customers)
      ensures |old(customers)| < MaxQueueCount ==> customers == old(customers) + [Spawned(a)]
    {
      if |customers| >= MaxQueueCount {
        return;
      }
      customers := customers + [Spawned(a)];
    }

    /**
     * scheduleNextCustomerIfNeeded: schedules an arrival only while running,
     * below capacity and with none already pending, so at most one is pending.
     */
    method ScheduleNextCustomerIfNeeded()
      modifies this`pending
      ensures pending == (old(pending) || (isRunning && |customers| < MaxQueueCount))
    {
      if !isRunning {
        return;
      }
      if |customers| >= MaxQueueCount {
        return;
      }
      if pending {
        return;
      }
      pending := true;
    }

    /**
     * The pending arrival's delay has elapsed: spawn if still running with
     * room, clear the pending flag, and schedule again if there is still room.
     */
    method ArrivalFires(a: Arrival)
      requires Valid() && pending && ValidArrival(a)
      modifies this`customers, this`pending
      ensures Valid()
      ensures customers == if old(isRunning) && |old(customers)| < MaxQueueCount
                           then old(customers) + [Spawned(a)] else old(customers)
      ensures pending == (isRunning && |customers| < MaxQueueCount)
    {
      if isRunning && |customers| < MaxQueueCount {
        SpawnCustomer(a);
      }
      pending := false;
      if isRunning && |customers| < MaxQueueCount {
        ScheduleNextCustomerIfNeeded();
      }
    }

    // --- the one-second tick -------------------------------------------------

    /** The tick's loop over customers.indices: one second off every customer that has time left. */
    method CountDownCustomers()
      modifies this`customers
      ensures customers == CountdownAll(old(customers))
    {
      var idx := 0;
      while idx < |customers|
        invariant 0 <= idx <= |customers| == |old(customers)|
        invariant forall j :: 0 <= j < idx ==> customers[j] == Countdown(old(customers)[j])
        invariant forall j :: idx <= j < |customers| ==> customers[j] == old(customers)[j]
      {
        if customers[idx].remaining > 0 {
          customers := customers[idx := customers[idx].(remaining := customers[idx].remaining - 1)];
        }
        idx := idx + 1;
      }
    }

    /**
     * The customer part of a tick: one second off every customer, the
     * expired ones leave, and the queue is refilled (scheduled once for the
     * departures and once more for any free place, as the timer does).
     */
    method CustomersTick()
      requires QueueValid()
      modifies this`customers, this`pending
      ensures QueueValid()
      ensures customers == RemoveExpired(CountdownAll(old(customers)))
      ensures pending == (old(pending) || (isRunning && |customers| < MaxQueueCount))
    {
      CountDownCustomers();
      TickKeepsCountdownsInRange(old(customers));

      var before := |customers|;
      customers := RemoveExpired(customers);
      var removed := before - |customers|;
      if removed > 0 {
        ScheduleNextCustomerIfNeeded();
      }
      ScheduleNextCustomerIfNeeded();
    }

    /**
     * One firing of the main timer. While running with time left: one second
     * off the clock, one second off every customer (stopping at zero), the
     * expired customers leave, the queue is refilled, and reaching the target
     * ends the game as a success. With no time left, the game ends and the
     * outcome is whether the target was reached.
     */
    method Tick()
      requires Valid()
      modifies this`remainingGameTime, this`customers, this`pending, this`isRunning,
               this`isGameOver, this`isChallengeSuccess, this`isChallengeFailure
      ensures Valid()
      ensures !old(isRunning) ==> unchanged(this)
      ensures old(isRunning) && old(remainingGameTime) == 0 ==>
                remainingGameTime == 0 && customers == old(customers) && Ended(score >= targetScore)
      ensures old(isRunning) && old(remainingGameTime) > 0 ==>
                remainingGameTime == old(remainingGameTime) - 1 &&
                customers == RemoveExpired(CountdownAll(old(customers))) &&
                (score >= targetScore ==> Ended(true)) &&
                (score < targetScore ==>
                   isRunning && !isGameOver && pending == (old(pending) || |customers| < MaxQueueCount))
    {
      if !isRunning {
        return;
      }
      if remainingGameTime > 0 {
        remainingGameTime := remainingGameTime - 1;
      } else {
        EndGame(score >= targetScore);
        return;
      }

      CustomersTick();

      if score >= targetScore {
        EndGame(true);
      }
    }

    // --- stand commands ------------------------------------------------------

    /** selectStand: selects an existing stand; any other index is ignored. */
    method SelectStand(index: int)
      requires Valid()
      modifies this`selectedStandIndex
      ensures Valid()
      ensures selectedStandIndex == if 0 <= index < |stands| then Some(index) else old(selectedStandIndex)
    {
      if !(0 <= index < |stands|) {
        return;
      }
      selectedStandIndex := Some(index);
    }

    /** setBaseForSelected: setBaseIfEmpty on the selected stand's build. */
    method SetBaseForSelected(b: BaseType)
      requires Valid()
      modifies SelectedStand()
      ensures Valid()
      ensures match selectedStandIndex
        case None => true
        case Some(i) =>
          var s := stands[i];
          && (old(s.base).Some? ==> unchanged(s))
          && (old(s.base).None? ==>
                s.base == Some(b) && s.scoops == Prefix(old(s.scoops), AllowedScoops(b)) &&
                s.toppings == old(s.toppings))
    {
      match selectedStandIndex {
        case None =>
        case Some(i) =>
          stands[i].SetBaseIfEmpty(b);
      }
    }

    /** addScoopToSelected: addScoopIfPossible on the selected stand's build. */
    method AddScoopToSelected(flavor: Flavor)
      requires Valid()
      modifies SelectedStand()
      ensures Valid()
      ensures match selectedStandIndex
        case None => true
        case Some(i) =>
          var s := stands[i];
          && (old(s.base).None? || |old(s.scoops)| >= AllowedScoops(old(s.base).value) ==> unchanged(s))
          && (old(s.base).Some? && |old(s.scoops)| < AllowedScoops(old(s.base).value) ==>
                s.base == old(s.base) && s.scoops == old(s.scoops) + [flavor] &&
                s.toppings == old(s.toppings))
    {
      match selectedStandIndex {
        case None =>
        case Some(i) =>
          stands[i].AddScoopIfPossible(flavor);
      }
    }

    /** toggleToppingForSelected: toggle(topping:) on the selected stand's build. */
    method ToggleToppingForSelected(topping: Topping)
      requires Valid()
      modifies SelectedStand()
      ensures Valid()
      ensures match selectedStandIndex
        case None => true
        case Some(i) =>
          var s := stands[i];
          s.toppings == Toggled(old(s.toppings), topping) &&
          s.base == old(s.base) && s.scoops == old(s.scoops)
    {
      match selectedStandIndex {
        case None =>
        case Some(i) =>
          stands[i].Toggle(topping);
      }
    }

    /** stands[i] = IceCreamBuild(): stand i gets a fresh empty build. */
    method ClearStand(i: int)
      requires Valid() && 0 <= i < |stands|
      modifies this`stands
      ensures Valid() && ClearedStand(i)
    {
      var cleared := new IceCreamBuild();
      stands := stands[i := cleared];
    }

    /** clearSelected: the selected stand gets a fresh empty build. */
    method ClearSelected()
      requires Valid()
      modifies this`stands
      ensures Valid()
      ensures selectedStandIndex.None? ==> stands == old(stands)
      ensures selectedStandIndex.Some? ==> ClearedStand(selectedStandIndex.value)
    {
      match selectedStandIndex {
        case None =>
        case Some(i) =>
          ClearStand(i);
      }
    }

    // --- delivery ------------------------------------------------------------

    /** customers.remove(at: k) followed by scheduleNextCustomerIfNeeded(): a served customer leaves and the queue is refilled. */
    method RemoveCustomer(k: nat)
      requires Valid() && k < |customers|
      modifies this`customers, this`pending
      ensures Valid()
      ensures customers == old(customers)[..k] + old(customers)[k + 1..]
      ensures pending == (old(pending) || (isRunning && |customers| < MaxQueueCount))
    {
      customers := customers[..k] + customers[k + 1..];
      assert forall j :: 0 <= j < |customers| ==> customers[j] == old(customers)[if j < k then j else j + 1];
      ScheduleNextCustomerIfNeeded();
    }

    /**
     * A successful delivery, as both delivery paths perform it: one point,
     * the stand cleared, the served customer gone and the queue refilled.
     */
    method Serve(standIndex: int, k: nat)
      requires Valid() && 0 <= standIndex < |stands| && k < |customers|
      modifies this`score, this`stands, this`customers, this`pending
      ensures Valid()
      ensures score == old(score) + 1
      ensures customers == old(customers)[..k] + old(customers)[k + 1..]
      ensures pending == (old(pending) || (isRunning && |customers| < MaxQueueCount))
      ensures ClearedStand(standIndex)
    {
      score := score + 1;
      ClearStand(standIndex);
      RemoveCustomer(k);
    }

    /** notifyDeliveryFeedback: raises the feedback flag with the outcome (its timed clearing is not modelled). */
    method NotifyDeliveryFeedback(success: bool)
      modifies this`deliveryFeedbackIsSuccess, this`showDeliveryFeedback
      ensures deliveryFeedbackIsSuccess == success && showDeliveryFeedback
    {
      deliveryFeedbackIsSuccess := success;
      showDeliveryFeedback := true;
    }

    /**
     * What deliverToAnyCustomer does past its guards to score and queue: the
     * build on the stand is compared with the queue in order; on a match the
     * score rises by one, the first matching customer leaves and the queue is
     * refilled; on a mismatch the score becomes score - max(0, score - 1)
     * and the queue stays as it was.
     */
    twostate predicate DeliveredToQueue(standIndex: int, success: bool)
      reads this`score, this`customers, this`pending, this`isRunning
    {
      && 0 <= standIndex < |old(stands)|
      && var m := old(FirstMatch(customers, stands[standIndex]));
      && success == m.Some?
      && (m.Some? ==>
            score == old(score) + 1 &&
            customers == old(customers)[..m.value] + old(customers)[m.value + 1..] &&
            pending == (old(pending) || (isRunning && |customers| < MaxQueueCount)))
      && (m.None? ==>
            score == MismatchScore(old(score)) && customers == old(customers) &&
            pending == old(pending))
    }

    /** The matching and scoring part of deliverToAnyCustomer, once its guards have passed. */
    method DeliverBuild(standIndex: int) returns (success: bool)
      requires Valid() && 0 <= standIndex < |stands|
      modifies this`score, this`stands, this`customers, this`pending
      ensures Valid()
      ensures DeliveredToQueue(standIndex, success)
      ensures ClearedStand(standIndex)
    {
      var build := stands[standIndex];
      var matchIndex := FirstMatch(customers, build);
      match matchIndex {
        case Some(k) =>
          Serve(standIndex, k);
          success := true;
        case None =>
          score := score - Max(0, score - 1);
          ClearStand(standIndex);
          success := false;
      }
    }

    /**
     * deliverToAnyCustomer(standIndex:): refused (false, nothing changes)
     * unless running, not over and the stand exists. Otherwise the build is
     * delivered to the first waiting customer it matches, if any (see
     * DeliveredToQueue); either way the stand is cleared and the feedback
     * flag raised with the outcome.
     */
    method DeliverToAnyCustomer(standIndex: int) returns (success: bool)
      requires Valid()
      modifies this`score, this`stands, this`customers, this`pending,
               this`showDeliveryFeedback, this`deliveryFeedbackIsSuccess
      ensures Valid()
      ensures !old(isRunning) || old(isGameOver) || !(0 <= standIndex < |old(stands)|) ==>
                !success && unchanged(this)
      ensures old(isRunning) && !old(isGameOver) && 0 <= standIndex < |old(stands)| ==>
                DeliveredToQueue(standIndex, success) && ClearedStand(standIndex) &&
                showDeliveryFeedback && deliveryFeedbackIsSuccess == success
    {
      if !isRunning || isGameOver {
        return false;
      }
      if !(0 <= standIndex < |stands|) {
        return false;
      }
      success := DeliverBuild(standIndex);
      NotifyDeliveryFeedback(success);
    }

    /**
     * deliver(standIndex:to:): delivers to the customer with the given id,
     * whatever the session state. Refused (false, nothing changes) when the
     * stand or the customer does not exist. On a match the score rises by
     * one and that customer leaves; on a mismatch the score drops by one,
     * below zero if need be. Either way the stand is cleared.
     */
    method Deliver(standIndex: int, customerId: nat) returns (ok: bool)
      requires Valid()
      modifies this`score, this`stands, this`customers, this`pending
      ensures Valid()
      ensures !(0 <= standIndex < |old(stands)|) || old(IndexOfId(customers, customerId)).None? ==>
                !ok && unchanged(this)
      ensures 0 <= standIndex < |old(stands)| && old(IndexOfId(customers, customerId)).Some? ==>
                var k := old(IndexOfId(customers, customerId)).value;
                && ok == old(Compare(stands[standIndex], customers[k].order))
                && (ok ==>
                      score == old(score) + 1 &&
                      customers == old(customers)[..k] + old(customers)[k + 1..] &&
                      pending == (old(pending) || (isRunning && |customers| < MaxQueueCount)))
                && (!ok ==>
                      score == old(score) - 1 && customers == old(customers) && pending == old(pending))
                && ClearedStand(standIndex)
    {
      if !(0 <= standIndex < |stands|) {
        return false;
      }
      var found := IndexOfId(customers, customerId);
      if found.None? {
        return false;
      }
      var k := found.value;
      var build := stands[standIndex];
      var order := customers[k].order;

      ok := Compare(build, order);
      if ok {
        Serve(standIndex, k);
      } else {
        score := score - 1;
        ClearStand(standIndex);
      }
    }
  }

  // ---------------------------------------------------------------------
  // Clients: what callers can conclude from the contracts alone
  // ---------------------------------------------------------------------

  /** With one second left and the target not reached, the first tick leaves the game running at zero; only the second ends it, as a failure. */
  method LastSecondTakesTwoTicks(vm: GameViewModel)
    requires vm.Valid() && vm.isRunning && vm.remainingGameTime == 1 && vm.score < vm.targetScore
    modifies vm
    ensures vm.isGameOver && vm.isChallengeFailure && !vm.isChallengeSuccess
  {
    vm.Tick();
    assert vm.isRunning && vm.remainingGameTime == 0;
    vm.Tick();
  }

  /** Once the game is over, ticks and refused deliveries change nothing, but deliver(standIndex:to:) still moves the score. */
  method GameOverFreezesTicksButNotDirectDelivery(vm: GameViewModel, standIndex: int)
    requires vm.Valid() && vm.isGameOver
    requires 0 <= standIndex < |vm.stands| && vm.customers != []
    requires !Compare(vm.stands[standIndex], vm.customers[0].order)
    modifies vm
    ensures vm.isGameOver
    ensures vm.score == old(vm.score) - 1
  {
    vm.Tick();
    var delivered := vm.DeliverToAnyCustomer(standIndex);
    assert !delivered && vm.score == old(vm.score);
    var ok := vm.Deliver(standIndex, vm.customers[0].id);
    assert !ok;
  }
}
