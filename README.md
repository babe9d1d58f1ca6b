# Ice-cream stand game: session engine in Dafny

This project models the engine of a timed SwiftUI ice-cream game. The engine keeps three stands; the view (`first_app/ContentView.swift:140`) shows and delivers from the first two only. The player builds cones and bowls on the stands and delivers them to at most two waiting customers before each customer's 20-second countdown and the 120-second match clock run out. The model covers two source files.

- `models.dfy` (module `Models`) models `first_app/Models.swift`. It holds the containers and the number of scoops each allows, the flavors and toppings, and the in-progress `IceCreamBuild`. The container of a build is set once, its scoops are append-only up to capacity, and its toppings toggle freely. It also holds the immutable `Order` and the `Customer` with its countdown and expiry.
- `game.dfy` (module `Game`) models `first_app/GameViewModel.swift`:
  - the matching function `compare`, stated as: same container, same multiset of scoops, same topping set;
  - random order generation and the bounded customer queue with its single pending arrival;
  - the body of the one-second timer;
  - the outcome state machine (start, reset, back to menu, end);
  - the stand commands;
  - the two delivery paths.

`IceCreamBuild` is a class because its `mutating` methods update its fields in place. The three stands are three distinct build objects, as the value copies in the source are. Orders and customers are values. The tick's loop updates a customer's countdown by an element update of the `customers` sequence. `GameViewModel` is a class. Each of its methods names in its `modifies` clause exactly the fields it may change, so "nothing else changes" is part of every contract.

The timer closure and the arrival task become two explicit events, `Tick()` and `ArrivalFires(a)`. `pending` stands for `pendingSpawnTask != nil`. Every random draw of one arrival is an `Arrival` parameter, constrained by `ValidArrival`. The draws are the container, one flavor per allowed scoop, the topping count in 0...3, the shuffled topping list, the customer id and the avatar number in 1...13.

The session invariant `GameViewModel.Valid()` holds after every command and event. It says:
- there are three distinct stands, and no build holds more scoops than its container allows;
- the selection, if any, names an existing stand;
- at most two customers wait, each with between 1 and 20 seconds left;
- `remainingGameTime` is between 0 and 120;
- an outcome is recorded exactly when the game is over, and a finished game neither runs nor has an arrival pending;
- a running session with room in the queue always has an arrival pending, so the queue refills itself.

Behaviour of the code that its comments or a quick reading would not suggest, modelled as written:
- A failed `deliverToAnyCustomer` sets the score to `score - max(0, score - 1)` (GameViewModel.swift:227). Any positive score collapses to 1, and a score of 0 or less stays as it is (`MismatchScore`). The comment at line 213 says the penalty is -1.
- `deliver(standIndex:to:)` subtracts exactly 1, so the score can go negative. It has no running or game-over guard, so it still changes score, queue and stands after the game has ended (`GameOverFreezesTicksButNotDirectDelivery`).
- The clock ends the game only on the tick after `remainingGameTime` has reached 0. With one second left, two ticks are needed (`LastSecondTakesTwoTicks`).
- Reaching the target is checked only by the tick. A winning delivery leaves the game running until the next tick.
- The stand commands have no running guard and work in any state.
- `backToMainMenu` leaves the target score, the selected stand and a pending arrival untouched.

## Model

| member | source | states |
|---|---|---|
| `Models.AllowedScoops` | first_app/Models.swift:15-21 | a single cone allows 1 scoop, a double cone 2, a bowl 3 (the count is the container's position in the list of all containers) |
| `Models.AllowedScoopsIdentifiesBase` | first_app/Models.swift:15-21 | two containers allow the same number of scoops iff they are the same container |
| `Models.Prefix` | first_app/Models.swift:85-87 | the scoops kept on choosing a container are a prefix of the old scoops, of length min(count, allowed) |
| `Models.Toggled` | first_app/Models.swift:98-104 | toggling flips the presence of the given topping and of no other |
| `Models.ToggledTwice` | first_app/Models.swift:98-104 | toggling the same topping twice restores the original topping set |
| `Models.IceCreamBuild.constructor` | first_app/Models.swift:74-79 | a new build has no container, no scoops and no toppings |
| `Models.IceCreamBuild.SetBaseIfEmpty` | first_app/Models.swift:82-88 | with a container already set nothing changes; otherwise the container is set, the scoops are cut to their prefix of allowed length and the toppings are kept; the capacity invariant is established or preserved |
| `Models.IceCreamBuild.AddScoopIfPossible` | first_app/Models.swift:91-95 | no-op without a container, when full, or when complete; otherwise exactly the flavor is appended and nothing else changes; the capacity invariant is preserved |
| `Models.IceCreamBuild.Toggle` | first_app/Models.swift:98-104 | the toppings become the toggled set; container and scoops are unchanged; the capacity invariant is preserved |
| `Models.IceCreamBuild.IsComplete` | first_app/Models.swift:106-109 | a build is complete iff a container is set and its scoop count equals what that container allows; a complete build is within capacity |
| `Models.ToggleTwice` | first_app/Models.swift:98-104 | two toggles of one topping leave the whole build as it was |
| `Models.NewCustomer` | first_app/Models.swift:126-133 | a new customer's countdown starts at the order's duration, and it is expired iff that duration is at most 0 |
| `Models.IsExpired` | first_app/Models.swift:133 | a customer is expired iff its remaining time is 0 or less, so one with time left has at least one second |
| `Game.Tally` | first_app/GameViewModel.swift:268-269 | the per-flavor dictionary has an entry exactly for the flavors present, holding their multiplicity |
| `Game.TallyEqualIffSameMultiset` | first_app/GameViewModel.swift:268-270 | two scoop lists have equal per-flavor dictionaries iff they have the same multiset of flavors |
| `Game.Compare` | first_app/GameViewModel.swift:264-273 | a build matches an order iff it has the order's container, the same scoop multiset and the same topping set; a build without a container never matches |
| `Game.CompareIgnoresScoopOrder` | first_app/GameViewModel.swift:267-270 | reordering a build's scoops (any permutation) never changes whether it matches |
| `Game.MatchingBuildIsComplete` | first_app/Models.swift:106-109 | a build that matches an order with a full scoop list is complete |
| `Game.CompareBowlExample` | first_app/GameViewModel.swift:264-273 | a bowl of strawberry, strawberry, guava with a cherry matches strawberry, guava, strawberry with a cherry, and does not match when one scoop becomes chocolate |
| `Game.DistinctToppingCount` | first_app/GameViewModel.swift:135-136 | a topping list without repetition yields a set of the same size |
| `Game.MakeRandomOrder` | first_app/GameViewModel.swift:132-138 | a generated order has as many scoops as its container allows, its topping set is the first `toppingCount` entries of the shuffled topping list, exactly that many (at most 3) toppings, and duration 20 |
| `Game.Spawned` | first_app/GameViewModel.swift:142-143 | the spawned customer carries the drawn id and the generated order and starts with 20 seconds, not expired |
| `Game.Countdown` | first_app/GameViewModel.swift:97-101 | one second lowers a positive countdown by one, never below zero, leaves a non-positive one alone, and changes nothing else |
| `Game.CountdownAll` | first_app/GameViewModel.swift:97-101 | every customer of the queue is counted down, in place and in order |
| `Game.CountdownTimesRemaining` | first_app/GameViewModel.swift:97-105 | after k seconds a customer with r >= 0 seconds has max(r - k, 0) left, so it is expired iff k >= r |
| `Game.SpawnedCustomerLifetime` | first_app/GameViewModel.swift:16 | a newly arrived customer expires exactly at its 20th second |
| `Game.TickKeepsCountdownsInRange` | first_app/GameViewModel.swift:97-105 | after countdown and eviction every waiting customer has between 1 and 20 seconds left |
| `Game.RemoveExpired` | first_app/GameViewModel.swift:105 | eviction keeps exactly the customers that are not expired, and never lengthens the queue |
| `Game.RemoveExpiredAppend` | first_app/GameViewModel.swift:105 | eviction distributes over concatenation, so the survivors keep their queue order |
| `Game.RemoveExpiredShrinks` | first_app/GameViewModel.swift:104-107 | the queue shrinks (removed > 0) iff some customer had expired |
| `Game.FirstMatch` | first_app/GameViewModel.swift:220 | the index found is that of the first customer whose order the build matches; none is found iff no customer matches |
| `Game.IndexOfId` | first_app/GameViewModel.swift:247 | the index found is that of the first customer with the given id; none is found iff no customer has it |
| `Game.MismatchScore` | first_app/GameViewModel.swift:227 | after a failed delivery a positive score becomes 1 and a score of 0 or less is unchanged; it never rises |
| `Game.NewStands` | first_app/GameViewModel.swift:66 | three fresh, distinct, empty builds |
| `Game.GameViewModel.constructor` | first_app/GameViewModel.swift:21-54 | menu state: not started, not running, score 0, 120 seconds, no customers, three empty stands with the first selected, nothing pending |
| `Game.GameViewModel.StartGame` | first_app/GameViewModel.swift:57-61 | records the target, marks the game started, and leaves the state resetGame leaves |
| `Game.GameViewModel.ResetGame` | first_app/GameViewModel.swift:63-80 | score 0, 120 seconds, three fresh empty stands, stand 0 selected, exactly the one spawned customer, one arrival pending, running, not over, no outcome |
| `Game.GameViewModel.BackToMainMenu` | first_app/GameViewModel.swift:170-180 | not started, not running, not over, score 0, 120 seconds, no customers, fresh empty stands, no outcome; target, selection and pending arrival untouched |
| `Game.GameViewModel.EndGame` | first_app/GameViewModel.swift:122-130 | no-op once over; otherwise stops running, cancels the pending arrival, and records success and failure as opposites |
| `Game.GameViewModel.SpawnCustomer` | first_app/GameViewModel.swift:140-144 | no-op with two customers waiting; otherwise appends exactly the one spawned customer |
| `Game.GameViewModel.ScheduleNextCustomerIfNeeded` | first_app/GameViewModel.swift:146-152 | an arrival becomes pending only while running and below capacity; scheduling never cancels a pending arrival |
| `Game.GameViewModel.ArrivalFires` | first_app/GameViewModel.swift:152-167 | spawns one customer if still running with room, then an arrival is pending again iff running with room |
| `Game.GameViewModel.CountDownCustomers` | first_app/GameViewModel.swift:97-101 | the loop leaves the queue equal to CountdownAll of the old queue |
| `Game.GameViewModel.CustomersTick` | first_app/GameViewModel.swift:96-113 | the queue becomes the unexpired survivors of the countdown, and the queue-refill invariant holds again |
| `Game.GameViewModel.Tick` | first_app/GameViewModel.swift:82-119 | a no-op when not running; at 0 seconds it ends the game with success iff score >= target and leaves the queue alone; otherwise one second off the clock, countdown and eviction, and an immediate win when score >= target |
| `Game.GameViewModel.SelectStand` | first_app/GameViewModel.swift:183-186 | selects an existing stand; any other index changes nothing |
| `Game.GameViewModel.SetBaseForSelected` | first_app/GameViewModel.swift:188-192 | applies setBaseIfEmpty to the selected stand only |
| `Game.GameViewModel.AddScoopToSelected` | first_app/GameViewModel.swift:194-198 | applies addScoopIfPossible to the selected stand only |
| `Game.GameViewModel.ToggleToppingForSelected` | first_app/GameViewModel.swift:200-204 | applies toggle to the selected stand only |
| `Game.GameViewModel.ClearStand` | first_app/GameViewModel.swift:208 | the given stand gets a fresh empty build and the other stands keep theirs |
| `Game.GameViewModel.ClearSelected` | first_app/GameViewModel.swift:206-209 | the selected stand gets a fresh empty build and the other stands keep theirs |
| `Game.GameViewModel.RemoveCustomer` | first_app/GameViewModel.swift:223-224 | exactly the customer at the index leaves, the rest keep their order, and the queue is refilled |
| `Game.GameViewModel.Serve` | first_app/GameViewModel.swift:221-224 | a successful delivery: score + 1, stand cleared, served customer removed, queue refilled |
| `Game.GameViewModel.NotifyDeliveryFeedback` | first_app/GameViewModel.swift:236-238 | the feedback flag is raised with the delivery's outcome |
| `Game.GameViewModel.DeliverBuild` | first_app/GameViewModel.swift:217-230 | on a match the first matching customer leaves and score + 1; on a mismatch score becomes score - max(0, score - 1) and the queue is kept; the stand is cleared either way |
| `Game.GameViewModel.DeliverToAnyCustomer` | first_app/GameViewModel.swift:214-234 | returns false and changes nothing when not running, over, or out of range; otherwise it delivers as DeliverBuild says and raises the feedback flag |
| `Game.GameViewModel.Deliver` | first_app/GameViewModel.swift:245-262 | returns false and changes nothing for an unknown stand or customer id; otherwise success iff the build matches that customer's order, score + 1 and that customer removed on success, score - 1 otherwise, stand cleared; no running guard |
| `Game.LastSecondTakesTwoTicks` | first_app/GameViewModel.swift:89-94 | with one second left and the target missed, the first tick leaves the game running at 0 and the second ends it as a failure |
| `Game.GameOverFreezesTicksButNotDirectDelivery` | first_app/GameViewModel.swift:245-262 | after the game is over a tick and deliverToAnyCustomer change nothing, yet a failed deliver(standIndex:to:) still lowers the score |

## Left out

- `first_app/ContentView.swift` is not part of this model: layout, icons, animations, haptics and the `timeString` formatter are presentation.
- `Timer.scheduledTimer` and the `Task`/`Task.sleep` machinery are replaced by the `Tick()` and `ArrivalFires(a)` events. A tick that the source would not deliver, because no timer is scheduled, is harmless: `isRunning` is false whenever no timer is live, and the tick is then a no-op.
- Task cancellation is modelled as clearing `pending` at once. In the source, a cancelled task stays non-nil until its `catch` path clears it and reschedules. The race in which cancellation lands after the sleep, at line 156, is concurrency and is not modelled. In that race the early return skips the clearing at line 162.
- `Game.GameViewModel.ArrivalFires` requires `pending`, because an arrival can only fire while its task exists.
- The arrival delay drawn from `spawnDelayRange` (3...5 seconds) is not modelled. No state depends on its value, only on when the arrival fires.
- The 0.7-second automatic clearing of `showDeliveryFeedback` is not modelled. The flag is only raised.
- Randomness (`randomElement`, `shuffled`, `Int.random`, `Double.random`) is not modelled as such. Each draw is a parameter constrained by `ValidArrival`.
- UUIDs: the build's `id` is not modelled. No engine code reads it. In the source, `Array(repeating: IceCreamBuild(), count: 3)` (lines 38, 66 and 177) runs the initializer once, so the three starting stands share one UUID; the model's three distinct objects stand for three separate value copies, not for three ids. An order's id is never read by the engine, so `Order` has none.
- `Game.ValidArrival`: a customer's id is a natural number drawn with the arrival, and its freshness is not modelled. The source draws a new `UUID()` per customer (`first_app/Models.swift:126`), but the model allows an arrival to reuse the id of a waiting customer; `Deliver` then serves the first customer with that id.
- `lastAvatarIndex` is never read or written by the engine and is not modelled. The avatar is a number in 1...13, not a string.
- `TimeInterval` values are modelled as integer seconds. Every value the engine uses is a whole number (120, 20, steps of 1).
- Swift's `Int` traps on overflow at 2^63. The model's integers are unbounded, and no reachable score comes near that limit.
- `Color`, `symbolName`, the raw string values, `Codable`, `objectWillChange` and `@Published` observation have no behaviour in the engine.
