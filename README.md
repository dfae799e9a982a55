# Genetic route scheduler — a verified model

The system assigns transport routes (each with a departure time `"HH:MM"`, a
start and an end location) to drivers with a genetic algorithm. This
project models that algorithm, `run_genetic_algorithm` in
`genetic/algorithm.py`, whose near-verbatim copy is the body of the
`generate_schedule` endpoint in `main.py`, together with the way the
time-matrix endpoints of `main.py` normalise a location pair before storing
it. The model is built from these modules:

- `Clock`: the `"%H:%M"` parse and format. A time is a number of minutes
  after midnight of a fixed day. Arrivals after midnight stay larger, and
  only formatting wraps them around the day.
- `TravelTimes`: the dict built from the stored rows, keyed by the raw
  pair, and `get_travel_time`, which looks up the sorted pair and falls back
  to 30 minutes. It also holds the endpoints' pair normalisation and their
  rejection of equal ids.
- `Sorting`: Python's stable `sorted` / `list.sort`, given as a stable
  insertion sort and proved sorted, a permutation and stable.
- `Records`: drivers, locations, routes, genes, individuals, and the shape
  every individual has.
- `Fitness`: `grade`. This is a method that follows the source's dicts
  step by step, proved against `Score`, which counts the late routes.
- `Randomness`: the random module, injected as a class over a fixed stream
  of draws in [0, 1) and a position that each call advances.
- `Operators`: `create_individual`, `crossover` (an array filled index by
  index) and `mutate` (an in-place swap on that array). Each is proved equal
  to a function of the stream and the start position.
- `Evolution`: `evolve` (ranking, elites, breeding) and `max(..., key=grade)`.
- `Scheduler`: the whole run. It covers the input check, the initial
  population, the generation loop, the best individual, the `< -99` guard
  and the per-driver projection with formatted end times.

The fitness guard of the balance term is `if not {delta < 1}:`
(`genetic/algorithm.py:59`, `main.py:229`). A one-element set is never
empty, so the branch never runs. The surrounding code does set up a
balance penalty: it computes `ideal_per_driver` and the per-driver counts,
and it declares `penalty_per_number` (`genetic/algorithm.py:49-58`). The
model follows the code as written: `Fitness.BalanceScore` keeps the dead
branch and proves that it leaves 0. The grade is therefore exactly −100
times the number of late routes.

## Model

| member | source | states |
|---|---|---|
| Clock.ParseTime | genetic/algorithm.py:8-9 | a parsed `"%H:%M"` time is a minute of the day, in [0, 1440) |
| Clock.FormatTime | genetic/algorithm.py:12-13 | the formatted time is five characters with a colon in the middle |
| Clock.ParseFormat | genetic/algorithm.py:8-13 | parsing a formatted moment gives the moment wrapped into the day (mod 1440) |
| Clock.FormatParse | genetic/algorithm.py:8-13 | formatting a parsed well-formed time gives back the same string |
| TravelTimes.Ordered | genetic/algorithm.py:43 | `sorted([a, b])`: the pair in ascending order, made of the same two ids |
| TravelTimes.TravelTime | genetic/algorithm.py:40-44 | `get_travel_time`: 0 for the same location, else the stored value of the sorted pair, else 30; its properties are in TravelTimeOracle |
| TravelTimes.BuildTable | genetic/algorithm.py:36-38 | the loop fills the dict exactly as `TableOf` does, row by row, with later rows overwriting |
| TravelTimes.LastRowWins | genetic/algorithm.py:37-38 | the dict holds the travel time of the last row stored under a pair |
| TravelTimes.UnstoredPairAbsent | genetic/algorithm.py:37-38 | a pair that no row stores is not a key of the dict |
| TravelTimes.TableOf | genetic/algorithm.py:36-38 | the dict as a function of the stored rows: each row sets its raw pair, a later row overwriting an earlier one; its properties are in LastRowWins and UnstoredPairAbsent |
| TravelTimes.TravelTimeOracle | genetic/algorithm.py:40-44 | travel time is 0 for the same location, is symmetric, is the stored value of the sorted pair, and is 30 when that pair is absent |
| TravelTimes.StoredRow | main.py:68-76 | equal ids are refused; otherwise the stored row has the lower id first, the same two ids and the requested travel time |
| TravelTimes.NormalizedRowFound | main.py:103-111 | a normalised row that no later row overrides is what the lookup returns, in both directions |
| TravelTimes.UnnormalizedRowMissed | main.py:207-211 | a row stored higher id first is never found by the sorted lookup, which falls back to 30 |
| Sorting.Insert | genetic/algorithm.py:33 | inserting into a sorted sequence keeps it sorted and adds exactly the element |
| Sorting.StableSort | genetic/algorithm.py:33 | the result is sorted by the key and a permutation of the input |
| Sorting.SortIsStable | genetic/algorithm.py:33 | for every key value, the elements with that key keep their input order |
| Records.SortKeepsStaffed | genetic/algorithm.py:30-33 | sorting genes whose drivers are all input drivers keeps them so |
| Records.Departure | genetic/algorithm.py:67 | the departure as minutes after midnight, parsed from the route's time string |
| Records.EndTime | genetic/algorithm.py:67-69 | the arrival: the departure plus the travel time between the route's start and end |
| Records.SortCommutes | genetic/algorithm.py:33 | sorting genes by departure orders their routes as sorting the routes does |
| Records.WellFormedShape | genetic/algorithm.py:20-34 | a well-formed individual has one gene per route, is in departure order, and holds the input routes as a multiset |
| Fitness.LastOf | genetic/algorithm.py:70-79 | the previous position of a driver: its gene is that driver's, and no later position before n is |
| Fitness.PriorStep | genetic/algorithm.py:78-79 | passing a gene updates only its own driver's end time and end location |
| Fitness.EndMemoryStep | genetic/algorithm.py:78 | writing the gene's end time keeps `last_end_time` equal to every driver's previous end |
| Fitness.LocationMemoryStep | genetic/algorithm.py:79 | writing the gene's end location keeps `last_end_loc` equal to every driver's previous end location |
| Fitness.LateFromMemory | genetic/algorithm.py:70-76 | a route is late exactly when its driver has a previous end and the departure is before that end plus the transfer plus 10 minutes |
| Fitness.Late | genetic/algorithm.py:70-76 | a route is late when its driver has an earlier route and the departure is before that route's end plus the transfer time plus 10 minutes |
| Fitness.Violations | genetic/algorithm.py:66-77 | the number of late routes among the first n is at most n |
| Fitness.Penalty | genetic/algorithm.py:66-79 | the score after the first n genes: 100 subtracted per late route; PenaltyCountsLate relates it to the number of late routes |
| Fitness.Score | genetic/algorithm.py:46-80 | the grade of an individual, the penalty over all its genes; ScoreCountsLate and Fitness.Grade state its meaning |
| Fitness.PenaltyCountsLate | genetic/algorithm.py:66-80 | the accumulated penalty is −100 times the number of late routes |
| Fitness.ScoreCountsLate | genetic/algorithm.py:46-80 | the grade is −100 times the number of late routes, so it is at most 0 and a multiple of 100 |
| Fitness.BalanceScore | genetic/algorithm.py:51-60 | the balance loop, behind its always-false guard, leaves the score at 0 |
| Fitness.NoPriorRoutes | genetic/algorithm.py:61-65 | the memory dicts start with a None entry for every input driver and no other key |
| Fitness.Visit | genetic/algorithm.py:66-79 | one gene of the loop subtracts 100 exactly when the route is late and moves both memories past it |
| Fitness.Grade | main.py:214-251 | `grade` run dict by dict computes the score of the individual |
| Fitness.NoViolationsIffNoneLate | genetic/algorithm.py:66-80 | no penalty was counted if and only if no route is late |
| Fitness.GuardIffLate | genetic/algorithm.py:122-123 | `grade < -99` holds exactly when some route is late, and the grade is 0 exactly when none is |
| Fitness.DistinctDriversScoreZero | genetic/algorithm.py:70-77 | with no driver used twice, nothing is late and the grade is 0 |
| Randomness.Pick | genetic/algorithm.py:31 | the index `random.choice` takes from n items is below n |
| Randomness.RandomSource.constructor | genetic/algorithm.py:4 | the generator starts at the first draw of its stream |
| Randomness.RandomSource.Random | genetic/algorithm.py:86 | `random.random()` returns the next draw and advances by one |
| Randomness.RandomSource.Choice | genetic/algorithm.py:31 | `random.choice` returns the index the next draw selects and advances by one |
| Operators.NewIndividualStaffed | genetic/algorithm.py:30-32 | every gene of a new individual names an input driver |
| Operators.NewIndividual | genetic/algorithm.py:20-34 | the individual `create_individual` builds from the draws at a given position: each route gets the driver its draw picks, then the genes are stably sorted by departure; NewIndividualShape states its shape |
| Operators.NewIndividualShape | genetic/algorithm.py:20-34 | a new individual is well formed: one gene per route, in departure order, with routes of equal departure kept in input order |
| Operators.CreateIndividual | main.py:181-195 | `create_individual` takes one draw per route and returns the sorted individual those draws determine |
| Operators.CrossShape | genetic/algorithm.py:82-91 | position i of the child is the gene at position i of one of the parents, so conforming parents give a conforming child |
| Operators.Cross | genetic/algorithm.py:82-91 | the child: parent1's gene where that position's draw exceeds 0.5, parent2's otherwise; CrossShape states its shape |
| Operators.Crossover | main.py:254-263 | the fresh child holds, at each position, parent1's gene when that position's draw exceeds 0.5 and parent2's otherwise, using one draw per position |
| Operators.FirstHit | genetic/algorithm.py:94-95 | the first position whose draw falls below the mutation probability; every earlier draw misses, and None means every draw misses |
| Operators.FirstHitAt | genetic/algorithm.py:94-95 | when the draws before i miss and draw i hits, the scan stops at i |
| Operators.SwapDrivers | genetic/algorithm.py:97 | the two positions exchange driver ids, keep their routes, and every other gene is unchanged |
| Operators.SwapKeeps | genetic/algorithm.py:97 | a swap keeps every route in place and the multiset of driver ids |
| Operators.Mutation | genetic/algorithm.py:93-99 | mutation keeps the individual's length |
| Operators.MutationShape | main.py:267-273 | mutation keeps every route and the multiset of driver ids, changes at most two positions, and keeps an individual conforming |
| Operators.MutationAt | genetic/algorithm.py:94-98 | the first hit at i swaps i with the position the next draw selects, after i + 2 draws |
| Operators.MutationNone | genetic/algorithm.py:94-99 | when every draw misses, the individual is unchanged, after one draw per position |
| Operators.Mutate | genetic/algorithm.py:93-99 | the in-place scan leaves the array and the stream position exactly as `Mutation` gives them |
| Evolution.RankedOrder | genetic/algorithm.py:102 | ranking is a permutation, in non-increasing grade order, with equal grades kept in their old order |
| Evolution.Ranked | genetic/algorithm.py:102 | `population.sort(key=grade, reverse=True)` as a stable sort by negated grade; RankedOrder states its meaning |
| Evolution.RankedFrom | genetic/algorithm.py:102 | every ranked individual comes from the population |
| Evolution.RankedSound | genetic/algorithm.py:102 | ranking keeps every individual conforming |
| Evolution.Breed | genetic/algorithm.py:104-109 | the refill loop appends exactly the missing number of children, each conforming |
| Evolution.SoundSplice | genetic/algorithm.py:103-109 | the elites and the appended children together stay conforming |
| Evolution.Evolve | genetic/algorithm.py:101-110 | the next generation has exactly `population_size` members, all conforming; it opens with the first fifth of the ranking unchanged, and its best grade is no lower |
| Evolution.BestIndex | genetic/algorithm.py:120 | `max(..., key=grade)`: an index of highest grade with every earlier grade strictly lower, so it is the first maximum |
| Evolution.InRanking | genetic/algorithm.py:102 | every individual of the population appears in the ranking |
| Evolution.EliteFirst | main.py:276-286 | a generation that opens with the top-ranked individual has a best grade no lower than before |
| Scheduler.EntryReadsBack | genetic/algorithm.py:133-141 | an entry keeps the route's id, locations and departure, and its `end_time` reads back as departure plus travel, wrapped into the day |
| Scheduler.Entry | genetic/algorithm.py:133-142 | the entry of one gene: its route's id, locations and departure, and the formatted arrival; EntryReadsBack states its meaning |
| Scheduler.Assigned | genetic/algorithm.py:131-132 | a driver's genes are no more than the individual's and all carry that driver's id |
| Scheduler.AssignedMembers | genetic/algorithm.py:131-132 | a gene is in a driver's list exactly when it is in the individual with that driver's id |
| Scheduler.AssignedInOrder | genetic/algorithm.py:131-132 | a driver's routes keep the individual's departure order |
| Scheduler.Entries | genetic/algorithm.py:131-142 | one entry per gene |
| Scheduler.EntriesAt | genetic/algorithm.py:136-142 | the j-th entry is built from the j-th gene |
| Scheduler.EntryListed | genetic/algorithm.py:136-142 | every listed gene has its entry among the entries |
| Scheduler.Project | genetic/algorithm.py:125-143 | the result has one schedule per input driver, in input order |
| Scheduler.OutcomeGuard | main.py:300-302 | the run fails exactly when the chosen best individual has a late route; the failure is the "insufficient drivers" error, and a returned schedule has no late route |
| Scheduler.Best | genetic/algorithm.py:120 | `max(population, key=grade)`: the individual at the first index of highest grade |
| Scheduler.Outcome | genetic/algorithm.py:120-145 | the end of a run: the insufficient-drivers error when the best grade is below −99, else the projection of the best individual; OutcomeGuard states its meaning |
| Scheduler.HeldOnce | genetic/algorithm.py:126-132 | among drivers with unique ids, an input driver's id is held by exactly one driver |
| Scheduler.LoadIsSize | genetic/algorithm.py:126-132 | with unique ids, the drivers together hold every gene of an individual once |
| Scheduler.ScheduledIsLoad | genetic/algorithm.py:125-143 | the schedules list as many entries as the drivers hold genes |
| Scheduler.GeneListed | genetic/algorithm.py:126-142 | a gene of a staffed individual is in the list of the driver its id names, and its entry is in that driver's schedule |
| Scheduler.Coverage | main.py:303-323 | with unique driver ids, each gene of the best individual is in exactly one driver's list and its entry is in that driver's schedule, and the schedules hold exactly as many entries as the individual has genes |
| Scheduler.FindBest | genetic/algorithm.py:120 | the scan that grades each individual returns the index `max` picks |
| Scheduler.Challenge | genetic/algorithm.py:120 | one step of that scan keeps the best-so-far index and its grade |
| Scheduler.RouteEntry | genetic/algorithm.py:133-142 | the entry keeps the route's id, start and end names and departure string, and its `end_time` parses back to departure plus travel, wrapped into the day |
| Scheduler.DriverRoutes | genetic/algorithm.py:131-142 | the inner loop collects exactly the entries of that driver's genes, in order |
| Scheduler.Schedules | genetic/algorithm.py:125-143 | the outer loop builds exactly the projection of the best individual |
| Scheduler.Conclude | genetic/algorithm.py:120-145 | choosing the best, applying the guard and projecting give the run's outcome |
| Scheduler.DrawnStep | genetic/algorithm.py:116 | creating the next individual at the current position extends the drawn population |
| Scheduler.DrawnEnd | genetic/algorithm.py:116 | k individuals take k times the number of routes in draws |
| Scheduler.DrawnAt | genetic/algorithm.py:116 | individual k is the one created from k times the number of routes draws in |
| Scheduler.DrawnSound | genetic/algorithm.py:116 | a population of created individuals conforms when every created individual does |
| Scheduler.CreationConforms | genetic/algorithm.py:20-34 | every created individual holds the routes in the stable departure order and only input drivers |
| Scheduler.Seed | genetic/algorithm.py:116 | the initial population has the requested size, and each individual is created from its own consecutive block of draws |
| Scheduler.Generations | genetic/algorithm.py:117-118 | the generation loop keeps the population size and soundness, and never lowers the best grade |
| Scheduler.Run | genetic/algorithm.py:16-145 | missing data fails before any draw; a malformed time fails after the first individual's draws; otherwise the initial population is created from the stream, the final one conforms and has a best grade no lower, and the result is the outcome of the final population |

## Left out

- The web layer and the database are left out: endpoints, sessions, queries, commits, and the duplicate-row and missing-row checks that depend on stored state (`main.py:83-84`, `main.py:118-119`). Also left out is the clearing and re-inserting of the schedule table after a run (`main.py:325-338`). The two explicit errors are `ValueError` in `genetic/algorithm.py` (lines 17-18 and 122-123) and `HTTPException(400)` in `main.py` (lines 175-176 and 301-302). The malformed-time error is the `ValueError` that `strptime` raises inside `sorted` (`main.py:194`, `main.py:198`); `generate_schedule` does not catch it. The model has one `Scheduler.Error` value for each of the three errors and does not model how they are reported.
- Travel times are floats in the database. The model uses whole minutes and does not model sub-minute `timedelta` arithmetic.
- Clock.ParseTime: accepts exactly two digits per field. `strptime` also accepts single-digit hours and minutes, and those lenient forms are not modelled.
- Randomness.Pick: CPython's `random.choice` uses rejection sampling over `getrandbits`. The model takes one draw per choice and reduces its 53 bits modulo the length. Only the number of draws and the range of the index matter to the proved properties.
- Evolution.Evolve: states the size, soundness, elite prefix and best grade of the next generation. It does not state which parents each child comes from or which draws it consumes.
- Evolution.Breed: states how many children there are and that each conforms. It does not give the children as a function of the stream.
- Scheduler.Generations: the final population is described by its size, soundness and best grade, not as an exact function of the stream.
- Scheduler.Run: gives the initial population exactly, but the final population only through the properties above. The malformed-time error is decided up front. It is modelled as occurring after the first individual's draws, which is where `sorted` parses the times.
- Evolution.Evolve: requires at least 4 individuals, and Scheduler.Generations at least 5, so that both parent pools and the elite prefix are non-empty. The source fixes the size at 200.
- Fitness.Grade: requires every gene to name an input driver. The source would raise `KeyError` otherwise, and every individual it builds meets this.
- Scheduler.Coverage: requires unique driver ids. The source gets this from the database primary key.
- Fitness.BalanceScore: the real-valued `ideal_per_driver` and `int()` truncation are modelled with Dafny reals and `Floor`. This only matters inside the branch that never runs.
- Operators.Mutate: the Python `break` followed by `return individual` is modelled as an early return.
- Individuals are values. `crossover` copies every gene dict, so no child shares a dict with a parent. The elites are carried over unchanged, and nothing later mutates them in place, so value semantics gives the same results. The in-place `population.sort` is modelled by the function `Evolution.Ranked`, because the sorted list is used only through the slices taken from it.
- The probabilities 0.5 and 0.1 do not affect the proved properties. The quality of convergence and the running time of 200 × 1000 evaluations are not modelled.
- Authentication, application wiring and the database seed script are not part of this model.
