# Sea of Conquest crew planner, modelled in Dafny

The planner reads a list of heroes and a list of trinkets from two CSV
files. It then builds a CP-SAT model that puts heroes on ships and gives
them trinkets.

Each hero has a name and four preference lists: positions, partners, ships
and trinkets. Each trinket has a name and a number of copies in stock. The
ships are every ship some hero prefers, each once. Every ship has the three
positions Captain, First Mate and Gunner. The user may exclude heroes and
ships before the model is built.

The model has three kinds of Boolean decision variables:

- one per `hero_ship_position` key, true when the hero holds that position;
- one per `hero_trinket` key, for the trinkets in stock;
- one `active_<ship>` flag per ship.

The rules posted on them:

- exactly four ships are active;
- each position of an active ship has exactly one hero;
- an inactive ship has no hero;
- an active ship has a crew of three;
- a hero holds at most one seat;
- a trinket is not given out more often than its stock;
- a hero holds at most one trinket.

Two score totals reward preferred seats and preferred trinkets, 10 points
each. The objective maximises their sum. After solving, the two solvers split
each variable's key on `_` to report the seats, grouped by ship, and the
trinkets, grouped by hero.

The model follows the program's files, one module each:

| module | file | what it holds |
|---|---|---|
| `CpSat` | `cp_sat.dfy` | the part of the OR-Tools `CpModel` the program uses, and what a valuation satisfying its constraints means |
| `VarMaps` | `var_maps.dfy` | the `Dictionary<string, IntVar>`, with its insertion order |
| `Grouping` | `grouping.dfy` | the `Dictionary<string, List<T>>` the solvers group their output in |
| `Text` | `text.dfy` | `Split`, `Contains`, `StartsWith`, `EndsWith` and LINQ `Distinct` |
| `Keys` | `keys.dfy` | the key strings and their round trips through `Split` |
| `Domain` | `domain.dfy` | `Hero`, `Trinket`, the configuration constants and the positions |
| `VariableFactory` | `variable_factory.dfy` | the three factories of decision variables |
| `ShipConstraints`, `HeroConstraints`, `TrinketConstraints` | `*_constraints.dfy` | the rule builders |
| `ModelInitializer` | `model_initializer.dfy` | the two score totals |
| `HeroSolver`, `TrinketSolver` | `*_solver.dfy` | decoding a valuation into the reports |
| `HeroReader`, `TrinketReader` | `*_reader.dfy` | the CSV readers |
| `Program` | `program.dfy` | `Main`'s filters and the order in which it assembles the model |

The model object is a class, `CpSat.CpModel`. Its fields are the variable
declarations, the constraints and the objective. Every builder is a method
that modifies it.

Each builder's `ensures` gives the model's new contents as a function of
the old ones. For example, `model.constraints == old(model.constraints) +
ShipConstraintList(...)`. Lemmas about those functions state what a
valuation satisfying the constraints means.

The solver itself is a parameter: a status, plus a valuation `val` that
gives each variable id its value.

## Model

| member | source | states |
|---|---|---|
| CpSat.CpModel.constructor | Program.cs:28 | a new model holds no variable, no constraint and no objective |
| CpSat.CpModel.NewBoolVar | Factories/VariableFactory.cs:20 | declares one variable with domain {0, 1} named by its key; its id is the number of variables before it; constraints and objective are unchanged |
| CpSat.CpModel.NewIntVar | Initializers/ModelInitializer.cs:13 | declares one variable with the given domain and name, numbered after all others; nothing else changes |
| CpSat.CpModel.Add | Constraints/ShipConstraints.cs:16 | appends exactly one constraint over declared variables; variables and objective are unchanged |
| CpSat.CpModel.Maximize | Program.cs:46 | sets the objective and changes nothing else |
| CpSat.EvalSum | Constraints/ShipConstraints.cs:16 | `LinearExpr.Sum` evaluates to the sum of the values of its variables |
| CpSat.AllHoldAppend | Program.cs:34-44 | constraints posted in two batches all hold exactly when each batch holds |
| CpSat.ValueAtMostSum | Constraints/HeroConstraints.cs:32 | with non-negative values, each value is at most the sum |
| CpSat.SumAtMostOne | Constraints/HeroConstraints.cs:32 | a non-negative sum of at most 1 has at most one non-zero term |
| CpSat.AtMostOneOn | Constraints/TrinketConstraints.cs:38-41 | under `Sum <= 1` with non-negative values, two non-zero terms are the same variable |
| CpSat.ZeroOneSumCounts | Constraints/ShipConstraints.cs:42 | a sum of 0/1 variables counts the variables at 1 |
| CpSat.CountOnesAtMost | Constraints/ShipConstraints.cs:16 | no more variables are at 1 than are listed |
| CpSat.ExactlyOneAtOne | Constraints/ShipConstraints.cs:31 | a 0/1 sum equal to 1 has exactly one variable at 1 |
| CpSat.SumZeroAllZero | Constraints/ShipConstraints.cs:31 | a non-negative sum equal to 0 has only zero terms |
| VarMaps.PutValid | Factories/VariableFactory.cs:51 | `dictionary[key] = var` keeps the dictionary well formed and maps the key to the new variable, leaving every other entry as it was |
| VarMaps.SelectMembers | Constraints/ShipConstraints.cs:25 | `Where(filter).Select(Value)` returns exactly the variables of the keys the filter keeps |
| VarMaps.SelectZeroOne | Constraints/ShipConstraints.cs:25 | selected variables of a 0/1 dictionary are 0/1 |
| Grouping.NoGroups | Solvers/HeroSolver.cs:24 | a new grouping dictionary is empty and well formed |
| Grouping.AddToKeeps | Solvers/HeroSolver.cs:45-50 | adding an item creates the key's list if missing and appends the item at its end; every other list is unchanged and no list is ever empty |
| Text.Split | Solvers/HeroSolver.cs:30 | `Split` returns at least one piece and no piece holds the separator |
| Text.JoinSplit | Solvers/HeroSolver.cs:30 | joining the pieces of a split gives back the string |
| Text.SplitJoin | Solvers/HeroSolver.cs:30 | splitting a join of separator-free pieces gives back the pieces |
| Text.SplitAppend | Solvers/HeroSolver.cs:30 | splitting `a + sep + b` splits `a` and `b` separately |
| Text.SplitAtSeparator | Solvers/HeroSolver.cs:31 | a string holding the separator splits into at least two pieces |
| Text.Dedup | Program.cs:84-87 | `Distinct()` keeps exactly the elements of the input, each once, never more of them |
| Text.DedupFirstOrder | Program.cs:84-87 | `Distinct()` lists the elements in the order of their first occurrences in the input |
| Text.DedupOfDistinct | Program.cs:84-87 | `Distinct()` of a list without repetitions is the list itself |
| Text.DedupKeepsAllOnlyIfDistinct | Program.cs:84-87 | `Distinct()` keeps every element only when there was no repetition |
| Keys.Key3RoundTrip | Factories/VariableFactory.cs:17 | splitting `hero_ship_position` gives back the three names when none holds `_` |
| Keys.Key2RoundTrip | Factories/VariableFactory.cs:50 | splitting `hero_trinket` gives back the two names when neither holds `_` |
| Keys.Key3Injective | Factories/VariableFactory.cs:17 | assignment keys of names without `_` are equal exactly for equal triples |
| Keys.Key2Injective | Factories/VariableFactory.cs:50 | trinket keys of names without `_` are equal exactly for equal pairs |
| Keys.Key3OfParts | Solvers/HeroSolver.cs:30-39 | a key that splits into three parts is the assignment key of those parts |
| Keys.Key2OfParts | Solvers/TrinketSolver.cs:29-37 | a key that splits into two parts is the trinket key of those parts |
| Keys.SeparatedKey3Splits | Solvers/HeroSolver.cs:30-35 | an assignment key built from a name holding `_` splits into more than three pieces |
| Keys.SeparatedKey2Splits | Solvers/TrinketSolver.cs:29-34 | a trinket key built from a name holding `_` splits into more than two pieces |
| Keys.SlotNeedleInKey3 | Constraints/ShipConstraints.cs:25 | `key.Contains(ship_position)` holds exactly when the needle straddles one of the key's two separators |
| Keys.ShipNameInKey3 | Constraints/ShipConstraints.cs:41 | `key.Contains(ship)` holds exactly when the ship name occurs in the hero, ship or position part |
| Keys.TrinketSuffixInKey2 | Constraints/TrinketConstraints.cs:21 | `key.EndsWith("_" + trinket)` holds exactly for the keys of that trinket, whatever the hero |
| Keys.HeroPrefixInKey2 | Constraints/TrinketConstraints.cs:35 | `key.StartsWith(hero)` holds exactly when the key's hero name starts with that hero's name |
| VariableFactory.CreateAssignmentVariables | Factories/VariableFactory.cs:8-27 | one Boolean variable per distinct `hero_ship_position` key, created at its first visit and named by it; nothing is posted |
| VariableFactory.CreateShipActiveVariables | Factories/VariableFactory.cs:29-38 | one `active_<ship>` variable per listed ship; a repeated ship gets a fresh variable that replaces the earlier one |
| VariableFactory.CreateTrinketAssignmentVariables | Factories/VariableFactory.cs:40-57 | one variable per hero and per trinket with a positive amount; a repeated key gets a fresh variable that replaces the earlier one |
| VariableFactory.FirstMapRegisters | Factories/VariableFactory.cs:18-21 | first-wins storing keeps each distinct key once, in first-visit order, with consecutively numbered variables |
| VariableFactory.LastMapRegisters | Factories/VariableFactory.cs:51 | last-wins storing keeps each key once, in first-visit order, holding the variable of its last visit |
| VariableFactory.LastMapEntry | Factories/VariableFactory.cs:51 | a key is present exactly when it was visited, and holds the variable created at its last visit |
| VariableFactory.AssignmentKeysMembers | Factories/VariableFactory.cs:11-17 | the visited keys are exactly the `hero_ship_position` keys of every hero, ship and position |
| VariableFactory.AssignmentKeysCount | Factories/VariableFactory.cs:11-17 | the loops visit `heroes * ships * positions` keys |
| VariableFactory.AssignmentKeysDistinct | Factories/VariableFactory.cs:18-21 | with names without `_` and no repeated name, every visited key is new |
| VariableFactory.AssignmentVariableCount | Factories/VariableFactory.cs:8-27 | at most one variable per hero, ship and position, and exactly one each when the names are plain and pairwise different |
| VariableFactory.HoldKeysMembers | Factories/VariableFactory.cs:44-50 | the trinket keys are the `hero_trinket` keys of every hero and every trinket in stock |
| VariableFactory.TrinketVariableExists | Factories/VariableFactory.cs:40-57 | with plain names, a hero has a variable for a trinket exactly when the hero is listed and some trinket of that name is in stock |
| VariableFactory.FirstMapInjective | Factories/VariableFactory.cs:18-21 | different assignment keys hold different variables |
| VariableFactory.LastMapInjective | Factories/VariableFactory.cs:51 | different trinket keys hold different variables |
| VariableFactory.AssignmentsKeys | Factories/VariableFactory.cs:8-27 | the assignment dictionary's keys are exactly the keys of the listed heroes, ships and positions |
| ShipConstraints.CollectMatching | Constraints/ShipConstraints.cs:25 | the `foreach` over the keys matching a substring collects exactly the selected variables, in key order |
| ShipConstraints.AddPositionConstraints | Constraints/ShipConstraints.cs:20-38 | posts, position by position, `Sum == active` and, when any variable was collected, `Sum <= 1` |
| ShipConstraints.AddCrewConstraints | Constraints/ShipConstraints.cs:18-43 | posts one ship's position rules, then `Sum(crew) == 3 * active` |
| ShipConstraints.AddShipAndHeroConstraints | Constraints/ShipConstraints.cs:13-44 | posts exactly the fleet rule and every ship's rules, in order; no variable is created |
| ShipConstraints.FourShipsActive | Constraints/ShipConstraints.cs:16 | in a solution the active flags sum to 4, so with 0/1 flags exactly four ships are active |
| ShipConstraints.SlotFollowsActive | Constraints/ShipConstraints.cs:22-37 | a position's collected variables sum to the ship's flag, the flag is 0 or 1, an active ship has one variable at 1 for the position and an inactive one none |
| ShipConstraints.CrewFollowsActive | Constraints/ShipConstraints.cs:40-42 | a ship's collected variables sum to three times its flag |
| ShipConstraints.PositionsPrefixFree | Program.cs:20 | the three positions hold no `_` and none starts another |
| ShipConstraints.SlotFilterExact | Constraints/ShipConstraints.cs:25 | with separated names, the position filter matches a key exactly when ship and position agree |
| ShipConstraints.CrewFilterExact | Constraints/ShipConstraints.cs:41 | with separated names, the crew filter matches a key exactly when the ship agrees |
| ShipConstraints.SlotMembersExact | Constraints/ShipConstraints.cs:25-26 | with separated names, a position collects exactly one variable per hero, that of the key for this ship and position |
| ShipConstraints.CrewCollectedKey | Constraints/ShipConstraints.cs:41 | with separated names, every variable collected for a ship belongs to a key of that ship |
| ShipConstraints.CrewKeyCollected | Constraints/ShipConstraints.cs:41 | with separated names, every key of a ship has its variable collected for that ship |
| ShipConstraints.OneHeroPerPosition | Constraints/ShipConstraints.cs:13-44 | in a solution with separated names, each position of an active ship is held by exactly one hero and no position of an inactive ship by any |
| ShipConstraints.ThreeHeroesPerActiveShip | Constraints/ShipConstraints.cs:40-42 | in a solution with separated names, an active ship has three seats taken and an inactive one none |
| ShipConstraints.NoSolutionBelowFourShips | Constraints/ShipConstraints.cs:16 | with 0/1 flags and fewer than four ships, the ship rules cannot all hold |
| ShipConstraints.CrewCollectsNamesakes | Constraints/ShipConstraints.cs:41 | a hero whose name contains a ship's name is counted in that ship's crew from every seat the hero can take |
| ShipConstraints.SlotCollectsSuffixShips | Constraints/ShipConstraints.cs:25 | a position of a ship also collects the seats of every ship whose name ends with it, at every position starting with that position's name |
| ShipConstraints.BayExamples | Constraints/ShipConstraints.cs:25-41 | a hero "Baylee" counts toward ship "Bay"'s crew from any seat, and ship "NewBay"'s seats fill ship "Bay"'s positions |
| HeroConstraints.CollectSlotVars | Constraints/HeroConstraints.cs:20-28 | the position loop collects the variables of the existing keys of one ship, in position order |
| HeroConstraints.CollectHeroVars | Constraints/HeroConstraints.cs:18-29 | the ship loop collects the variables of every existing key of one hero, ship by ship |
| HeroConstraints.AddHeroAssignmentConstraints | Constraints/HeroConstraints.cs:14-34 | posts one `Sum <= 1` per hero, even over an empty list, and creates no variable |
| HeroConstraints.HeroVarsMembers | Constraints/HeroConstraints.cs:23-27 | a hero's sum ranges exactly over the variables of the existing keys of that hero |
| HeroConstraints.HeroConstraintsMean | Constraints/HeroConstraints.cs:32 | the posted rules hold exactly when each hero's variables sum to at most 1 |
| HeroConstraints.AtMostOnePosition | Constraints/HeroConstraints.cs:14-34 | in a solution with 0/1 variables and names without `_`, a hero holds at most one seat |
| HeroConstraints.CalculatePreferenceScore | Constraints/HeroConstraints.cs:39-48 | the score is 10 exactly for a preferred ship together with a preferred position, and 1 otherwise |
| TrinketConstraints.AddTrinketConstraints | Constraints/TrinketConstraints.cs:14-43 | posts the stock caps, then the one-trinket rules, each only when some key matched; no variable is created |
| TrinketConstraints.TrinketHoldersExact | Constraints/TrinketConstraints.cs:19-22 | with plain trinket names, the suffix filter collects exactly the keys of that trinket, one per hero |
| TrinketConstraints.HeroTrinketsPrefix | Constraints/TrinketConstraints.cs:33-36 | the prefix filter collects the keys of every hero whose name starts with the hero's name, not only the hero's own |
| TrinketConstraints.OutOfStockUnconstrained | Constraints/TrinketConstraints.cs:24-27 | a trinket with no copy in stock has no variable, so no cap is posted for any listed entry of that name |
| TrinketConstraints.StockRespected | Constraints/TrinketConstraints.cs:24-27 | in a solution, a trinket is held no more often than its stock |
| TrinketConstraints.HeroTrinketsAtMostOne | Constraints/TrinketConstraints.cs:38-41 | in a solution, at most one variable collected for a hero is non-zero |
| TrinketConstraints.OwnKeyCollected | Constraints/TrinketConstraints.cs:33-36 | a hero's own keys are among those collected for the hero |
| TrinketConstraints.OneTrinketPerHero | Constraints/TrinketConstraints.cs:31-42 | in a solution with 0/1 variables, a hero with a plain name holds at most one trinket |
| ModelInitializer.Contribute | Initializers/ModelInitializer.cs:33-35 | one contribution: a variable with domain `[0, score]` tied to `assignment * score` |
| ModelInitializer.InitializeTotalScoreForHeroes | Initializers/ModelInitializer.cs:9-46 | declares the total with domain `[0, heroes * 10]`, one contribution per preferred seat whose key exists, then `Sum == total` |
| ModelInitializer.InitializeTotalScoreForTrinkets | Initializers/ModelInitializer.cs:48-79 | declares the total with domain `[0, heroes * 10]`, one contribution per preferred trinket whose key exists, then `Sum == total` |
| ModelInitializer.HeroScoredMembers | Initializers/ModelInitializer.cs:17-40 | a hero contribution exists exactly for a preferred ship, a listed and preferred position and an existing key, and is always worth 10 |
| ModelInitializer.HeroScoredSound | Initializers/ModelInitializer.cs:17-40 | every hero contribution is a preferred seat worth 10 |
| ModelInitializer.HeroScoredComplete | Initializers/ModelInitializer.cs:17-40 | every preferred seat with a variable is a contribution worth 10 |
| ModelInitializer.HeroTrinketScoredMembers | Initializers/ModelInitializer.cs:56-73 | a trinket contribution exists exactly for a preferred trinket whose key exists, worth 10 |
| ModelInitializer.ShipsScoredAppend | Initializers/ModelInitializer.cs:19 | a ship listed twice among a hero's preferences is scored twice |
| ModelInitializer.TrinketsScoredAppend | Initializers/ModelInitializer.cs:58 | a trinket listed twice among a hero's preferences is scored twice |
| ModelInitializer.ContributionsSum | Initializers/ModelInitializer.cs:33-35 | under the contribution rules, the contributions sum to the weighted sum of the scored assignments |
| ModelInitializer.TotalIsWeightedSum | Initializers/ModelInitializer.cs:43 | under the posted rules, the total equals the weighted sum, and 0 when nothing was scored |
| HeroSolver.SolveHeroAssignments | Solvers/HeroSolver.cs:13-79 | reports nothing unless the status is Optimal or Feasible; otherwise decodes the whole dictionary in key order |
| HeroSolver.DecodeWellFormed | Solvers/HeroSolver.cs:45-50 | the grouped output is well formed and no ship has an empty list |
| HeroSolver.DecodeSeats | Solvers/HeroSolver.cs:26-54 | a seat is reported under a ship exactly when some key valued 1 splits into that hero, ship and position |
| HeroSolver.DecodeShips | Solvers/HeroSolver.cs:45-48 | a ship is reported exactly when some key valued 1 splits into three parts with that ship in the middle |
| HeroSolver.DecodeAny | Solvers/HeroSolver.cs:52 | `anyAssigned` is set exactly when some key valued 1 splits into three parts |
| HeroSolver.DecodeAssignments | Solvers/HeroSolver.cs:26-54 | for the factory's dictionary over names without `_`, the report lists exactly the seats the valuation fills |
| HeroSolver.ReportedOnce | Solvers/HeroSolver.cs:26-54 | in a solution of the hero rules, a hero is reported at most once |
| HeroSolver.SeparatedKeySkipped | Solvers/HeroSolver.cs:31-35 | a key with a name holding `_` is skipped and the report does not change |
| HeroSolver.SeparatedNamesUnreported | Solvers/HeroSolver.cs:31-35 | a seat whose names hold `_` is never reported, whatever the valuation |
| TrinketSolver.SolveTrinketAssignments | Solvers/TrinketSolver.cs:13-76 | reports nothing unless the status is Optimal or Feasible; otherwise decodes the whole dictionary in key order |
| TrinketSolver.DecodeWellFormed | Solvers/TrinketSolver.cs:42-47 | the grouped output is well formed and no hero has an empty list |
| TrinketSolver.DecodeEntries | Solvers/TrinketSolver.cs:25-51 | an entry is reported under a hero exactly when some key valued 1 splits into that hero and trinket |
| TrinketSolver.DecodeHeroes | Solvers/TrinketSolver.cs:42-45 | a hero is reported exactly when some key valued 1 splits into two parts with that hero first |
| TrinketSolver.DecodeAny | Solvers/TrinketSolver.cs:49 | `anyAssigned` is set exactly when some key valued 1 splits into two parts |
| TrinketSolver.DecodeHoldings | Solvers/TrinketSolver.cs:25-51 | for the factory's dictionary over names without `_`, the report lists exactly the trinkets the valuation gives, each in stock |
| TrinketSolver.ReportedOneTrinket | Solvers/TrinketSolver.cs:25-51 | in a solution of the trinket rules, each hero is reported with at most one trinket |
| TrinketSolver.SeparatedKeySkipped | Solvers/TrinketSolver.cs:30-34 | a key with a name holding `_` is skipped and the report does not change |
| TrinketSolver.SeparatedNamesUnreported | Solvers/TrinketSolver.cs:30-34 | an entry whose names hold `_` is never reported, whatever the valuation |
| HeroReader.ReadHeroes | Utilities/HeroReader.cs:15-42 | the loop reads the heroes of the accepted lines, in line order |
| HeroReader.ParseFormatHero | Utilities/HeroReader.cs:23-36 | reading the line written for a hero gives back that hero |
| HeroReader.EmptyFieldsReadAsBlank | Utilities/HeroReader.cs:32-35 | an empty preference field is read as one blank name, not as an empty list |
| HeroReader.ExtraFieldsIgnored | Utilities/HeroReader.cs:30-36 | fields after the fifth do not change the hero read |
| HeroReader.HeroesAppend | Utilities/HeroReader.cs:20-38 | reading two blocks of lines reads the heroes of each, in order |
| HeroReader.HeroesLength | Utilities/HeroReader.cs:24-28 | never more heroes than lines, and as many exactly when every line has five fields or more |
| HeroReader.ReadFormattedHeroes | Utilities/HeroReader.cs:15-42 | reading the lines written for a list of heroes gives back the list |
| TrinketReader.ReadTrinkets | Utilities/TrinketReader.cs:15-36 | the loop reads the trinkets of the accepted lines in order, or stops at the first unreadable amount |
| TrinketReader.ParseFormatInt | Utilities/TrinketReader.cs:30 | `Convert.ToInt32` reads any integer written in decimal with white space around it when it fits in 32 bits, and fails otherwise |
| TrinketReader.ReadFormattedLine | Utilities/TrinketReader.cs:23-31 | reading the line written for a trinket gives it back, negative amounts included, and fails on an amount outside 32 bits |
| TrinketReader.ExtraFieldsIgnored | Utilities/TrinketReader.cs:30 | fields after the second do not change what a line gives |
| TrinketReader.TrinketsAppend | Utilities/TrinketReader.cs:20-32 | reading two blocks of lines gives the trinkets of each in order, or the first failing line counted from the start |
| TrinketReader.FailureKept | Utilities/TrinketReader.cs:30 | once a line fails, the lines after it do not change the result |
| TrinketReader.TrinketsLength | Utilities/TrinketReader.cs:20-32 | a successful read gives never more trinkets than lines, and as many exactly when every line has two fields or more |
| TrinketReader.TrinketsFailure | Utilities/TrinketReader.cs:30 | the read fails exactly when some line has an unreadable amount, and names the first such line |
| TrinketReader.ReadFormattedTrinkets | Utilities/TrinketReader.cs:15-36 | reading the lines written for trinkets with 32-bit amounts gives back the list |
| Program.DistinctShips | Program.cs:84-87 | the ship list holds every ship some hero prefers, each once, and nothing else |
| Program.PreferredShipSound | Program.cs:86 | every listed ship is preferred by some hero |
| Program.PreferredShipComplete | Program.cs:86 | every ship a hero prefers is listed |
| Program.RemoveExcludedHeroesMeans | Program.cs:25 | a hero remains exactly when it was read and its name was not excluded; with nothing excluded the list is unchanged |
| Program.ExceptShipsMeans | Program.cs:26 | a ship remains exactly when it was listed and not excluded, each once, in order |
| Program.CreateDecisionVariables | Program.cs:29-31 | the three dictionaries are those of the factories, numbered one after the other, and no constraint is posted |
| Program.PostRules | Program.cs:34-36 | the ship, hero and trinket rules are posted in that order |
| Program.PostTotals | Program.cs:38-39 | the hero total, then the trinket total, each followed by its contributions |
| Program.PostScores | Program.cs:38-46 | adds the totals, the overall score with domain `[0, heroes * 20]` tied to their sum, and maximises it |
| Program.AssembleModel | Program.cs:28-46 | a new model holds the decision variables first, then the rules, then the scores, with the overall score as objective |
| Program.BuildModel | Program.cs:19-46 | the model is assembled over the heroes and ships left after the exclusions, with the three fixed positions: the factories' 0/1 variables first, then the rules and the scores |
| Program.OverallScore | Program.cs:42-44 | in a solution, the objective equals the weighted sum of the preferred seats taken plus that of the preferred trinkets held |
| Program.RulesHold | Program.cs:34-36 | a solution of the whole model satisfies each of the three rule groups |
| Program.OneSeatPerHero | Program.cs:34-35 | when the rules and scores hold and the seat variables are 0/1, with names without `_`, no hero holds two seats |
| Program.OneTrinketEach | Program.cs:36 | when the rules and scores hold and the trinket variables are 0/1, no hero with a plain name holds two trinkets |
| Program.ShipsManned | Program.cs:34 | when the rules and scores hold and the seat and ship variables are 0/1, over separated names, four ships are active, each position of an active ship has one hero, an inactive ship none, and an active crew numbers three |
| Program.FewShipsNoSolution | Program.cs:26 | with fewer than four ships left after the exclusions, no valuation with 0/1 flags satisfies the rules |
| Program.BoolDeclsBoolean | Factories/VariableFactory.cs:20 | every variable `NewBoolVar` declares has domain {0, 1} |
| Program.DecisionVariablesBoolean | Factories/VariableFactory.cs:14-53 | in the model `BuildModel` assembles, a valuation inside the declared domains gives every seat, trinket and ship variable the value 0 or 1 |
| Program.SolutionSeatsHeroOnce | Program.cs:28-49 | in any valuation the solver may report as Optimal or Feasible for the assembled model, with names without `_`, no hero holds two seats |
| Program.SolutionOneTrinketEach | Program.cs:28-49 | in any valuation the solver may report for the assembled model, no hero with a plain name holds two plainly named trinkets |
| Program.SolutionShipsManned | Program.cs:28-49 | in any valuation the solver may report for the assembled model over separated names, four ships are active, each position of an active ship has one hero, an inactive ship none, and an active crew numbers three |
| Program.SolutionNeedsFourShips | Program.cs:26-49 | with fewer than four ships left after the exclusions, no valuation satisfies the assembled model, so the solver cannot report Optimal or Feasible |

## Outside the naming conditions

Several results above assume one of two conditions on names:

- `Plain`: a name holds no `_`.
- `Separated`: every name is plain, no ship name occurs inside a hero, position or other ship name, and no position name starts another.

Outside those conditions the program behaves differently, and the model states how:

- A name holding `_` gives a key that splits into too many pieces. The solvers skip such keys with their format error, so a hero the solver seats is missing from the output. See `HeroSolver.SeparatedKeySkipped`, `HeroSolver.SeparatedNamesUnreported`, `TrinketSolver.SeparatedKeySkipped` and `TrinketSolver.SeparatedNamesUnreported`.
- The crew and position filters test substrings. A hero "Baylee" counts toward ship "Bay"'s crew of three from any seat, and ship "NewBay"'s seats fill ship "Bay"'s positions. See `ShipConstraints.CrewCollectsNamesakes`, `ShipConstraints.SlotCollectsSuffixShips` and `ShipConstraints.BayExamples`.
- The one-trinket filter tests a prefix, so hero "Al" shares one trinket with hero "Alice". See `TrinketConstraints.HeroTrinketsPrefix`.
- The fleet rule asks for exactly four active ships. With fewer than four ships left after the exclusions, the model has no solution. See `ShipConstraints.NoSolutionBelowFourShips` and `Program.FewShipsNoSolution`.

## Left out

- The solver search is not modelled. `CpSolver.Solve` is replaced by an arbitrary status and valuation. The two solves at Program.cs:48-49 are not tied to each other, and an Optimal status is not tied to the objective's maximum.
- Value: a variable id past the end of the valuation reads as 0. The solver returns a value for every variable, so this case does not occur in the program.
- The Spectre.Console prompts (Program.cs:52-82) are replaced by the lists of excluded names they return.
- RemoveExcludedHeroes: `Except` compares heroes by reference, while the model filters by name. The two agree because Program.cs:65 selects every hero whose name was ticked.
- Console output is reduced to the `Seat`, `Held` and `Report` datatypes. The message text is not modelled.
- `StreamReader`, a missing file and `ReadLine`'s line splitting are not modelled. The readers take the file as a sequence of lines.
- ParseInt32: the sign accepts only ASCII `+` and `-`. Culture-specific sign symbols and the trailing `\0` characters that `Int32.Parse` accepts are not modelled.
- 32-bit overflow in `heroes.Count * MaxScore` (Initializers/ModelInitializer.cs:12, 51 and Program.cs:42) is not modelled, because integers are unbounded.
- `StartsWith` and `EndsWith` without a comparison argument compare by culture in .NET. The model compares ordinally.
- `PreferredPartners` is read but no constraint or score uses it. `Config.MaxActiveShips` is never read, because the fleet rule hard-codes 4.
- The positions are a parameter of the builders. `Program.BuildModel` passes the three fixed names.
- Hero.cs and Trinket.cs at the repository root are not part of this model. The model follows Models/Hero.cs and Models/Trinket.cs.
