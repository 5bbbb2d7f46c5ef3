# Bestiary game rules in Dafny

This project models the rule layer of the bestiary village game. The layer covers:

- the deterministic 100×100 world map generator;
- lumberjack missions: creation, a time-driven status, recall, the loop toggle and lazy completion;
- daily food consumption, applied under an optimistic lock;
- building construction and its lazy completion;
- inhabitants;
- the wandering traveler that can be welcomed and then assigned;
- village placement and naming.

It also models the two duration formatters of the interface and the sign-up/sign-in validation rules.

Time is a whole number of milliseconds since the epoch, and "now" is always a parameter. A table row's id is its position in the table. Each database table becomes a Dafny class that holds the rows as a `seq`; its methods reassign those rows and state their new contents. Each decision is specified by a pure function that returns a `Result`, one error constructor per error message of the source. Lemmas then prove what the game promises about those functions:

- phases follow one another in time;
- the sweeps are idempotent;
- decay is applied once per day boundary;
- a welcomed traveler can be assigned;
- the formatters can be read back.

Modules follow the source directories:

| module | file | source |
|---|---|---|
| `Distance` | `distance.dfy` | `lib/game/missions/distance.ts` |
| `MissionStatus` | `mission_status.dfy` | `compute-mission-status.ts` |
| `MapGenerator` | `map_generator.dfy` | `lib/game/map/generator.ts` |
| `MissionConfig` | `mission_config.dfy` | `mission-config.ts` |
| `Inhabitants` | `inhabitants.dfy` | `lib/game/inhabitants` |
| `Villages` | `villages.dfy` | `lib/game/village` |
| `Resources` | `resources.dfy` | `lib/game/resources` |
| `Missions` | `missions.dfy` | create, recall, toggle |
| `MissionSweep` | `mission_sweep.dfy` | `complete-missions.ts` |
| `Buildings` | `buildings.dfy` | `lib/game/buildings` |
| `Travelers` | `travelers.dfy` | `lib/game/travelers` |
| `Formatting` | `formatting.dfy` | `lib/utils/format-time.ts`, `components/place/countdown.tsx` |
| `AuthValidation` | `auth_validation.dfy` | `lib/validations/auth.ts` |

`Wrappers` holds `Option` and `Result`.

The generator's biome choice compares the draw scaled by 100 with the cumulative weights. The model makes that comparison on integers, as `u·200 ≤ c₂·2³²`, where `c₂` is twice the cumulative weight. This is exact: the draw `u/2³²` and its product with 100 both fit in a double without rounding, and the cumulative weights are sums of halves.

## Model

| member | source | states |
|---|---|---|
| Distance.ChebyshevDistance | lib/game/missions/distance.ts:5-7 | the distance is at least each of the absolute coordinate differences and equals one of them |
| Distance.CeilDiv | lib/game/missions/distance.ts:11 | the result is the least integer q with q·d ≥ n |
| Distance.ComputeTravelSeconds | lib/game/missions/distance.ts:9-12 | there is no travel time exactly when the speed is not positive; otherwise the time is the least whole number of seconds covering distance×3600/speed |
| Distance.DistanceIsMetric | lib/game/missions/distance.ts:5-7 | the distance is non-negative, zero only between equal cells, and symmetric |
| Distance.TriangleInequality | lib/game/missions/distance.ts:5-7 | going through a third cell is never shorter |
| Distance.CeilingIsUnique | lib/game/missions/distance.ts:11 | any q bracketing n/d the same way is the ceiling |
| Distance.TravelTimeMonotone | lib/game/missions/distance.ts:9-12 | a farther target never takes less time at the same speed, and a faster traveller never takes longer over the same distance |
| Distance.LumberjackTenCells | prisma/seed.ts:6-18 | a speed-2 lumberjack needs 18000 s for 10 cells |
| MissionStatus.Clamp | lib/game/missions/compute-mission-status.ts:99-101 | the result lies in [0,1] and any value already in [0,1] is unchanged |
| MissionStatus.ClampedRatio | lib/game/missions/compute-mission-status.ts:70-86 | phase progress always lies in [0,1]; a zero-length window gives 0 or 1 as the clamped infinity does |
| MissionStatus.Yield | lib/game/missions/compute-mission-status.ts:54-57 | the projected yield never exceeds the capacity; it is the capacity only when the whole work time at the gather rate reaches it, and otherwise the whole number of hours of work times the gather rate, floored |
| MissionStatus.ComputeMissionStatus | lib/game/missions/compute-mission-status.ts:17-97 | recall is offered exactly in the outbound phase; the remaining seconds are never negative and are zero once completed; both progresses lie in [0,1]; a recalled mission projects nothing and never works; otherwise it projects the yield |
| MissionStatus.NormalPhaseWindows | lib/game/missions/compute-mission-status.ts:64-87 | without a recall, the phase is outbound, working, returning or completed according to the four time windows delimited by departure, arrival, end of work and return |
| MissionStatus.RecalledPhaseWindows | lib/game/missions/compute-mission-status.ts:17-43 | a recalled mission is returning until it has walked back the time it spent outbound, and completed afterwards |
| MissionStatus.PhaseMonotone | lib/game/missions/compute-mission-status.ts:17-97 | the phase never goes backwards as time advances |
| MissionStatus.CompletedExactlyFromArriveHome | lib/game/missions/compute-mission-status.ts:17-97 | a mission is completed exactly from its home-arrival instant on |
| MissionStatus.ConcreteLumberjackMission | lib/game/missions/compute-mission-status.ts:45-97 | a 10-cell lumberjack mission with one hour of work projects 10 wood, starts working 5 hours after departure and is completed 11 hours after it |
| MapGenerator.StateAfterShift | lib/game/map/generator.ts:19-25 | advancing from a shifted seed equals advancing one more step from the original |
| MapGenerator.StateAfterOne | lib/game/map/generator.ts:20-21 | one draw adds the Weyl increment to the state |
| MapGenerator.NthBiomeIsMixOfState | lib/game/map/generator.ts:40-53 | the k-th biome drawn is the weighted choice applied to the mixed state after k+1 draws |
| MapGenerator.WorldMap | lib/game/map/generator.ts:92-95 | the world map is 100×100 and each cell is the biome drawn in row-major order from the world seed |
| MapGenerator.WeightsSumToHundred | lib/game/map/generator.ts:44-45 | the biome weights sum to 100 |
| MapGenerator.SelectFromIsFirstHit | lib/game/map/generator.ts:47-52 | the scan from weight i returns a biome whose cumulative weight the scaled draw does not exceed |
| MapGenerator.SelectBiomeIsFirstHit | lib/game/map/generator.ts:40-53 | every draw selects some biome whose cumulative weight threshold the scaled draw does not exceed |
| MapGenerator.InitializeMap | lib/game/map/generator.ts:28-38 | the initial map is 100×100 prairie, with each cell carrying its own coordinates |
| MapGenerator.Put | lib/game/map/generator.ts:58-60 | writing a cell changes that cell and no other |
| MapGenerator.ScanWeights | lib/game/map/generator.ts:44-52 | the cumulative-weight loop returns the weighted choice |
| MapGenerator.MapGenerator.Random | lib/game/map/generator.ts:17-26 | each call advances the state by the Weyl increment and returns `Mix` of it, the mulberry32 output function written with 32-bit operations |
| MapGenerator.MapGenerator.SelectBiomeWeighted | lib/game/map/generator.ts:40-53 | the biome returned is the n-th biome of the seed's sequence, n being the draws made so far |
| MapGenerator.MapGenerator.GenerateRow | lib/game/map/generator.ts:55-62 | filling one row draws 100 biomes and leaves the other rows unchanged |
| MapGenerator.MapGenerator.GenerateRandomCells | lib/game/map/generator.ts:55-62 | after filling, every cell holds the biome of its row-major draw |
| MapGenerator.MapGenerator.Generate | lib/game/map/generator.ts:64-67 | the generated grid is complete and holds every cell's row-major draw |
| MapGenerator.GenerateWorldMap | lib/game/map/generator.ts:92-95 | generation from the world seed yields exactly the world map |
| MapGenerator.GenerateThrice | lib/game/map/generator.ts:92-95 | three generations give the same map, so generation is deterministic |
| MissionConfig.Keys | lib/game/missions/mission-config.ts:33 | the capable types list the configuration keys in order |
| MissionConfig.Lookup | lib/game/missions/mission-config.ts:11-30 | a key has a configuration exactly when some entry carries it, and the configuration returned is that entry's |
| MissionConfig.FindByFeature | lib/game/missions/mission-config.ts:36-38 | a feature maps to a type exactly when some entry targets it, and the result is a configured key |
| MissionConfig.FeatureRoundTrip | lib/game/missions/mission-config.ts:11-38 | in an unambiguous configuration, looking up a key's feature gives the key back |
| MissionConfig.ConfigIsUnambiguous | lib/game/missions/mission-config.ts:11-30 | no key and no feature is configured twice |
| MissionConfig.ConfiguredFeatures | lib/game/missions/mission-config.ts:11-38 | `GetInhabitantTypeForFeature`: forests map to lumberjacks, mountains to miners and nothing else to anyone; the capable types are lumberjack and miner |
| MissionConfig.CapableTypesRoundTrip | lib/game/missions/mission-config.ts:33-38 | every capable type has a configuration whose feature maps back to it |
| Inhabitants.NewRecord | lib/game/inhabitants/assign-inhabitant.ts:34-40 | a new record holds one of the assigned type and none of the others |
| Inhabitants.AssignedCounts | lib/game/inhabitants/assign-inhabitant.ts:34-46 | assigning raises the chosen type by one and leaves the other types unchanged |
| Inhabitants.SumOverIncrement | lib/game/inhabitants/types.ts:2-12 | raising one listed type by one raises a sum over distinct types by one |
| Inhabitants.TotalAfterAssign | lib/game/inhabitants/assign-inhabitant.ts:34-46 | `TotalInhabitants`, the sum over the listed types: every assignment raises it by exactly one |
| Inhabitants.TotalInhabitants | lib/game/travelers/assign-traveler.ts:56-58 | the population the capacity check uses is zero when the village has no inhabitant record and never negative when no count is |
| Inhabitants.GetUnoccupiedInhabitantsCount | lib/game/inhabitants/get-unoccupied-inhabitants-count.ts:3-32 | the idle count is never negative, is zero without inhabitants, and otherwise is the total minus missions and builders, or zero when those cover the total |
| Inhabitants.UnoccupiedMonotone | lib/game/inhabitants/get-unoccupied-inhabitants-count.ts:3-32 | more active work never increases the idle count; with nothing active everyone is idle; the idle count never exceeds the population |
| Inhabitants.InhabitantsTable.AssignInhabitant | lib/game/inhabitants/assign-inhabitant.ts:12-53 | an invalid type or a missing village changes nothing and reports its error; otherwise the village's record becomes the assigned counts |
| Villages.BorderZoneShape | lib/game/village/assign-village.ts:10-27 | `IsInBorderZone`: the zone is symmetric under both mirror flips and under swapping the axes, excludes the centre square, contains every map cell whose nearest edge is 3 to 10 cells away, and decides example cells such as (0,5), (0,0) and (2,50) |
| Villages.RowStartIsProduct | lib/game/village/assign-village.ts:38 | row y of a width-w grid starts at index w·y of the flattened map |
| Villages.FlattenIsRowMajor | lib/game/village/assign-village.ts:38 | flattening a rectangular grid places cell (x,y) at index w·y+x |
| Villages.WorldMapRowMajor | lib/game/village/assign-village.ts:37-40 | the flattened world map holds cell (x,y) at index 100·y+x |
| Villages.FindFreePrairie | lib/game/village/assign-village.ts:38-50 | no cell is found exactly when no border prairie cell is free; otherwise the one found is a free border prairie cell of the map |
| Villages.OwnedFrom | lib/game/village/assign-village.ts:31-34 | a village is found exactly when the user owns one, and it is the user's |
| Villages.NamedFrom | lib/game/village/update-village-name.ts:28-30 | a village is found exactly when one carries the name, and it carries it |
| Villages.LeadingWhite | lib/game/village/update-village-name.ts:17 | the leading whitespace run fits in the string |
| Villages.TrailingWhite | lib/game/village/update-village-name.ts:17 | the trailing whitespace run fits in the string |
| Villages.LeadingWhiteRun | lib/game/village/update-village-name.ts:17 | the leading run is all whitespace, and the character after it is not |
| Villages.TrailingWhiteRun | lib/game/village/update-village-name.ts:17 | the trailing run is all whitespace, and the character before it is not |
| Villages.TrimIsSlice | lib/game/village/update-village-name.ts:17 | the trimmed name is a contiguous slice of the original |
| Villages.TrimDropsWhiteTail | lib/game/village/update-village-name.ts:17 | everything after the trimmed slice is whitespace |
| Villages.TrimEndsNonWhite | lib/game/village/update-village-name.ts:17 | a non-empty trimmed name starts and ends with non-whitespace |
| Villages.TrimSplits | lib/game/village/update-village-name.ts:17 | `Trim`, the model of `String.prototype.trim`: the name is whitespace, then the trimmed name, then whitespace, and the trimmed name has no whitespace at either end |
| Villages.TrimIdempotent | lib/game/village/update-village-name.ts:17 | trimming twice is trimming once |
| Villages.Utf16Length | lib/game/village/update-village-name.ts:19-25 | the UTF-16 length lies between the code-point count and twice that |
| Villages.CheckVillageName | lib/game/village/update-village-name.ts:17-25 | a name is accepted exactly when its trimmed UTF-16 length is 3 to 30, the stored value is the trimmed name, and each error matches its bound |
| Villages.CheckVillageNameStable | lib/game/village/update-village-name.ts:17-25 | an accepted name is accepted again unchanged |
| Villages.AppendKeepsValid | lib/game/village/assign-village.ts:56-62 | adding a village of a new owner, unnamed, at a position no village holds keeps ids, owners, positions and names unique |
| Villages.RenameKeepsValid | lib/game/village/update-village-name.ts:32-41 | renaming to a name no other village holds keeps the table valid |
| Villages.CapacityKeepsValid | lib/game/buildings/complete-pending-buildings.ts:37-40 | changing a capacity keeps the table valid |
| Villages.NewVillage | lib/game/village/assign-village.ts:36-62 | placement fails exactly when no border prairie is free; otherwise the new village is the user's, unnamed, with the next id and the default capacity, on the first free border prairie of the map in the given order, at a position no existing village occupies |
| Villages.VillageTable.AssignVillageToUser | lib/game/village/assign-village.ts:29-63 | an existing village is returned unchanged; otherwise the placement result is appended when it succeeds; uniqueness is kept |
| Villages.VillageTable.UpdateVillageName | lib/game/village/update-village-name.ts:10-47 | a rejected name changes nothing; a name taken by another owner is refused; otherwise the user's village takes the trimmed name and the table stays valid |
| Resources.MidnightBoundary | lib/game/resources/apply-daily-consumption.ts:19-22 | the new consumption stamp is always a UTC midnight |
| Resources.BoundaryIsStartOfToday | lib/game/resources/apply-daily-consumption.ts:9-22 | `FullDaysElapsed` counts the UTC midnights crossed: advancing the stamp by that many days lands on the last midnight at or before now, so no time is lost or double-counted |
| Resources.BoundaryAdvances | lib/game/resources/apply-daily-consumption.ts:19-22 | a positive number of days moves the stamp forward |
| Resources.TwoMidnights | lib/game/resources/apply-daily-consumption.ts:5-8 | 23:00 on one day to 01:00 two days later counts two midnights |
| Resources.TypeMap | lib/game/resources/compute-daily-consumption.ts:22 | the map's keys are exactly the keys of the type rows, and each entry is filed under its own key |
| Resources.TypeMapLastWins | lib/game/resources/compute-daily-consumption.ts:22 | with duplicate keys the last row wins |
| Resources.ComputeDailyConsumption | lib/game/resources/compute-daily-consumption.ts:14-40 | the loop computes the daily need: zero without a record, otherwise the per-type sums over the listed types, rounded to tenths |
| Resources.ConsumptionNonNegative | lib/game/resources/compute-daily-consumption.ts:27-34 | non-negative rates and counts give a non-negative consumption |
| Resources.ConsumptionAfterOneMore | lib/game/resources/compute-daily-consumption.ts:27-34 | one more inhabitant of a type adds exactly that type's rates |
| Resources.NeedAfterAssign | lib/game/resources/compute-daily-consumption.ts:14-40 | assigning an inhabitant raises the unrounded daily need by its type's rates |
| Resources.RoundTenths | lib/game/resources/compute-daily-consumption.ts:37-38 | rounding picks the nearest whole tenth, halves rounding up |
| Resources.PlanConsumption | lib/game/resources/apply-daily-consumption.ts:50-65 | nothing is planned exactly when no midnight has passed; otherwise food drops by the rounded total, floored at zero, and the stamp moves to the last midnight |
| Resources.ConsumptionIdempotent | lib/game/resources/apply-daily-consumption.ts:50-65 | re-running at the same instant after a commit plans nothing |
| Resources.ConsumptionNeverAddsFood | lib/game/resources/apply-daily-consumption.ts:56-60 | consumption never increases food |
| Resources.CommitIfUnchanged | lib/game/resources/apply-daily-consumption.ts:67-80 | the update happens exactly when the stamp still matches; otherwise the row is untouched |
| Resources.ConcurrentDecayAppliesOnce | lib/game/resources/apply-daily-consumption.ts:67-80 | of two runs planned from the same snapshot, the second commit fails, so decay is applied once |
| Resources.ResourcesRecord.Commit | lib/game/resources/apply-daily-consumption.ts:67-80 | the stored row becomes what the guarded update gives |
| Resources.ApplyDailyConsumption | lib/game/resources/apply-daily-consumption.ts:34-81 | without resources nothing happens; otherwise the planned update is committed under the lock and the result says whether it was |
| Missions.ActiveOfType | lib/game/missions/create-mission.ts:55-66 | the number of busy inhabitants of a type never exceeds the rows counted |
| Missions.ActiveOfTypeAppend | lib/game/missions/create-mission.ts:55-66 | a new mission raises the count for its village and type by one and for nothing else |
| Missions.TargetCell | lib/game/missions/create-mission.ts:41-42 | a cell is found exactly inside the grid, and it is the grid's cell |
| Missions.PlanMissionWith | lib/game/missions/create-mission.ts:27-86 | each refusal happens exactly when its guard fails and the earlier ones pass; a created mission departs now, with the travel time of its distance, and is outbound |
| Missions.CreateMissionAsWrittenNeverSucceeds | lib/game/missions/create-mission.ts:27-86 | `PlanMissionAsWritten`, the guard chain with the forest test as written: no mission can ever be created, and any request passing the duration and village checks is refused as not a forest |
| Missions.CreatedMissionStartsOutbound | lib/game/missions/create-mission.ts:27-86 | `PlanMission`, the guard chain with the corrected forest test: a created mission targets a forest, is outbound at creation, can be recalled, and occupies one more lumberjack |
| Missions.CheckRecall | lib/game/missions/recall-mission.ts:17-46 | each refusal matches its guard (unknown mission, foreign owner, already recalled, no longer outbound); success stamps the recall at now |
| Missions.RecallOnlyWhileOutbound | lib/game/missions/recall-mission.ts:36-41 | a recall succeeds only when the status offers it, and the mission then returns |
| Missions.RecallShortensTrip | lib/game/missions/recall-mission.ts:43-46 | an outbound recall brings the mission home earlier than its planned return minus its work time |
| Missions.CheckToggle | lib/game/missions/toggle-mission-loop.ts:11-43 | each refusal matches its guard; success flips the loop flag and changes nothing else |
| Missions.ToggleTwiceRestores | lib/game/missions/toggle-mission-loop.ts:34-37 | toggling twice restores the mission |
| Missions.MissionTable.CreateMission | lib/game/missions/create-mission.ts:27-86 | the table grows by the planned mission exactly when planning succeeds |
| Missions.MissionTable.RecallMission | lib/game/missions/recall-mission.ts:11-52 | the mission is replaced by its recalled form exactly when the recall check passes |
| Missions.MissionTable.ToggleMissionLoop | lib/game/missions/toggle-mission-loop.ts:11-43 | the mission is replaced by its toggled form exactly when the toggle check passes |
| MissionSweep.Credit | lib/game/missions/complete-missions.ts:37-42 | a due, unrecalled mission with a positive yield credits exactly that yield, and nothing else is ever credited |
| MissionSweep.SweptRows | lib/game/missions/complete-missions.ts:21-58 | the sweep handles each row independently |
| MissionSweep.NoDueNoCredit | lib/game/missions/complete-missions.ts:35 | with nothing due, no wood is credited |
| MissionSweep.SweepIdempotent | lib/game/missions/complete-missions.ts:5-9 | sweeping twice at the same instant changes nothing more and credits nothing more |
| MissionSweep.SweepLeavesOthers | lib/game/missions/complete-missions.ts:14-19 | completed missions and other villages' missions are left untouched and credit nothing |
| MissionSweep.NothingFromRecalledOrUnknown | lib/game/missions/complete-missions.ts:22-42 | recalled missions and missions of unknown types credit nothing |
| MissionSweep.SweepSnoc | lib/game/missions/complete-missions.ts:21-58 | sweeping a longer list sweeps the extra row and adds its credit |
| MissionSweep.SweepKeepsValid | lib/game/missions/complete-missions.ts:44-48 | the sweep keeps every mission's village valid |
| MissionSweep.SweepStep | lib/game/missions/complete-missions.ts:21-58 | one loop step extends the swept prefix by one row |
| MissionSweep.SweepOne | lib/game/missions/complete-missions.ts:22-57 | one step completes that mission when due and credits its wood, changing nothing else |
| MissionSweep.SweepMissions | lib/game/missions/complete-missions.ts:21-58 | the loop leaves the swept rows and the total credit added to wood, and other resources unchanged |
| MissionSweep.CompletePendingMissions | lib/game/missions/complete-missions.ts:10-59 | lazy completion sweeps the village's rows, adds the total credit to wood and keeps the table valid |
| MissionSweep.ConcreteSweep | lib/game/missions/complete-missions.ts:10-59 | a finished one-hour lumberjack mission is completed and credits 10 wood |
| Buildings.Debit | lib/game/buildings/start-building.ts:48-57 | the debit removes exactly each cost and never goes negative when affordable |
| Buildings.CheckStart | lib/game/buildings/start-building.ts:11-46 | each refusal matches its guard, and success returns an affordable catalogue type |
| Buildings.CapacityCredit | lib/game/buildings/complete-pending-buildings.ts:19-43 | a due building of a known type with a positive bonus credits exactly that bonus, and nothing else is ever credited |
| Buildings.SweptBuildings | lib/game/buildings/complete-pending-buildings.ts:19-44 | the sweep handles each building independently |
| Buildings.NoDueNoGain | lib/game/buildings/complete-pending-buildings.ts:21 | with nothing due, capacity does not change |
| Buildings.BuildingSweepIdempotent | lib/game/buildings/complete-pending-buildings.ts:3-8 | sweeping twice completes nothing more and adds no capacity |
| Buildings.BuildingSweepStep | lib/game/buildings/complete-pending-buildings.ts:19-44 | one loop step extends the swept prefix by one building |
| Buildings.WoodenHut | prisma/seed.ts:111-124 | a wooden hut adds one capacity once its 30 seconds have elapsed, and not before |
| Buildings.AddCapacity | lib/game/buildings/complete-pending-buildings.ts:35-42 | the target village's capacity rises by the credit and every other village is unchanged |
| Buildings.AddCapacityTwice | lib/game/buildings/complete-pending-buildings.ts:35-42 | two credits add up |
| Buildings.BuildingTable.StartBuilding | lib/game/buildings/start-building.ts:11-70 | a refused start changes nothing; an accepted one debits the costs and appends a pending building |
| Buildings.BuildingTable.CompleteOne | lib/game/buildings/complete-pending-buildings.ts:20-43 | one step completes that building when due and credits its bonus |
| Buildings.BuildingTable.SweepBuildings | lib/game/buildings/complete-pending-buildings.ts:19-44 | the loop leaves the swept buildings and the total bonus added to capacity |
| Buildings.BuildingTable.CompletePendingBuildings | lib/game/buildings/complete-pending-buildings.ts:9-45 | lazy completion sweeps the buildings, raises only the village's capacity and keeps both tables valid |
| Travelers.RandomBetween | lib/game/travelers/resolve-traveler.ts:13-15 | the draw lies within its inclusive bounds |
| Travelers.CreateTravelerDates | lib/game/travelers/resolve-traveler.ts:17-26 | arrival lies 5 to 15 minutes ahead and the stay lasts 10 to 30 minutes, in whole seconds |
| Travelers.WelcomeAsWritten | lib/game/travelers/welcome-traveler.ts:13-51 | each refusal matches its guard; success extends the stay by 24 hours and sets nothing else |
| Travelers.Welcome | lib/game/travelers/welcome-traveler.ts:13-51 | the corrected welcome refuses exactly as the source does and succeeds only for a present traveler |
| Travelers.WelcomeHoldsTraveler | lib/game/travelers/welcome-traveler.ts:41-44 | a welcomed traveler stays present for the next 24 hours |
| Travelers.CheckAssign | lib/game/travelers/assign-traveler.ts:19-91 | each refusal matches its guard (invalid type, no village, no claimable traveler, not welcomed, village full); success stamps the assignment and adds one inhabitant |
| Travelers.AssignedAtMostOnce | lib/game/travelers/assign-traveler.ts:64-77 | an assigned traveler can never be assigned again |
| Travelers.AssignAfterWelcomeAsWrittenFails | lib/game/travelers/welcome-traveler.ts:41-44 | after the welcome as written, assignment is always refused as not welcomed |
| Travelers.AssignAfterWelcomeSucceeds | lib/game/travelers/assign-traveler.ts:48-77 | after the corrected welcome, assignment succeeds within the 24 hours when the village has room |
| Travelers.TravelerTable.ResolveTraveler | lib/game/travelers/resolve-traveler.ts:36-65 | a missing, assigned or departed traveler is replaced by a fresh one that is waiting; otherwise the status is waiting or present according to the arrival time |
| Travelers.TravelerTable.WelcomeTraveler | lib/game/travelers/welcome-traveler.ts:13-51 | the stored traveler becomes the welcomed one exactly when the welcome succeeds |
| Travelers.TravelerTable.AssignTraveler | lib/game/travelers/assign-traveler.ts:19-102 | the traveler is claimed and the inhabitants raised exactly when the assignment check passes |
| Formatting.NatToString | lib/utils/format-time.ts:7-9 | the decimal text is all digits, has no leading zero, and has one or two digits below 100 |
| Formatting.Pad2 | lib/utils/format-time.ts:7-8 | padding a number below 100 gives exactly two digits |
| Formatting.ParseNatToString | lib/utils/format-time.ts:7-9 | reading the decimal text gives the number back |
| Formatting.ParsePad2 | lib/utils/format-time.ts:7-8 | reading a padded number gives it back |
| Formatting.SplitOn | lib/utils/format-time.ts:7-9 | splitting always yields at least one part |
| Formatting.SplitJoin | lib/utils/format-time.ts:7-8 | splitting two separator-free parts joined by the separator gives the two parts back |
| Formatting.DigitsHaveNoSeparator | lib/utils/format-time.ts:7-9 | digit strings contain no space or colon |
| Formatting.SplitSeconds | lib/utils/format-time.ts:3-5 | hours, minutes and seconds recompose the total, with minutes and seconds below 60 and hours zero exactly under an hour |
| Formatting.FormatTimeRemaining | lib/utils/format-time.ts:1-10 | the text ends in "m" exactly from an hour on and in "s" below, and contains a space exactly from a minute on |
| Formatting.FormatTimeRoundTrip | lib/utils/format-time.ts:1-10 | reading the text back gives 0 for non-positive input, the total minus its seconds from an hour on, and the exact total below an hour |
| Formatting.FormatCountdown | components/place/countdown.tsx:10-17 | under an hour the countdown is five characters with a colon in the middle |
| Formatting.CountdownRoundTrip | components/place/countdown.tsx:10-17 | reading the countdown back gives the exact total, or 0 for non-positive input |
| Formatting.FormatExamples | lib/utils/format-time.ts:1-10 | 7507 s reads "2h 05m" and "2:05:07", and 247 s reads "04:07" |
| AuthValidation.BmpLength | lib/validations/auth.ts:5-6 | for characters of the basic plane, the UTF-16 length is the character count |
| AuthValidation.UsernameIssues | lib/validations/auth.ts:4-7 | each username issue is reported exactly when its rule fails |
| AuthValidation.UsernameAccepted | lib/validations/auth.ts:4-7 | a username passes exactly when it has 3 to 20 letters, digits or underscores |
| AuthValidation.SignUpPasswordIssues | lib/validations/auth.ts:9-12 | each sign-up password issue is reported exactly when its rule fails |
| AuthValidation.SignInPasswordIssues | lib/validations/auth.ts:17 | sign-in only requires a non-empty password |
| AuthValidation.SignUpPasswordSignsIn | lib/validations/auth.ts:9-17 | every password accepted at sign-up is accepted at sign-in |
| AuthValidation.SignUp | lib/validations/auth.ts:3-13 | sign-up passes exactly when the username, email and password each pass |
| AuthValidation.SignIn | lib/validations/auth.ts:15-18 | sign-in passes exactly when the email is valid and the password non-empty |
| AuthValidation.UsernameForm | lib/validations/auth.ts:20-25 | the username form passes exactly when the username passes |
| AuthValidation.UsernameFormsAgree | lib/validations/auth.ts:4-7 | the username form and sign-up apply the same username rules |
| AuthValidation.SignUpThenSignIn | lib/validations/auth.ts:3-18 | whoever can sign up with an email and password can sign in with them |
| AuthValidation.GoodUsername | lib/validations/auth.ts:4-7 | "bob_42" is a valid username |
| AuthValidation.GoodPassword | lib/validations/auth.ts:9-12 | "Secret123" is a valid password |
| AuthValidation.SignUpExample | lib/validations/auth.ts:3-13 | a valid username, email and password sign up |
| AuthValidation.WeakPasswordExample | lib/validations/auth.ts:9-12 | "secret" fails on length, uppercase and digit, in that order |
| AuthValidation.EmptyUsernameExample | lib/validations/auth.ts:4-7 | an empty username is both too short and not made of allowed characters |

## Left out

- Authentication: the session lookup, and the "not authenticated" refusals that come from it, are not part of this model. The acting user is a parameter.
- Database failures: the catch branches that turn them into generic errors are not modelled, and neither is page revalidation.
- Interface text: error message wording and the labels and emoji of the interface are not modelled. Each message is one error constructor.
- Email validation is a boolean parameter. The email grammar is not part of this model.
- `density.ts` is not part of this model, and neither is `get-inhabitant-stats.ts`. Per-type statistics are a parameter map; a missing type falls back to zeros as in `complete-missions.ts`.
- Work durations: the minimum and maximum work durations come from a constants file that is not part of this model, so they are parameters.
- Default village capacity: it comes from the database schema, so it is a parameter.
- Numbers: JavaScript floating point is modelled with mathematical reals for progress ratios and with whole tenths for consumption rates. A zero-length window with no time elapsed gives 0 where the source's 0/0 would give NaN.
- Distance.ComputeTravelSeconds: the travel time is the exact ceiling of distance×3600/speed. The source takes the ceiling of the double `(distance / speed) * 3600`, which can land one above the exact value. Distance 11 at speed 5 gives 7921 in the source (the double is 7920.000000000001) and 7920 here. At the catalogue speed 2 the double product is exact, because distance/2 is a multiple of one half.
- MissionStatus.Yield: the yield is the exact floor of workSeconds×gatherRate/3600. The source floors the double `(workSeconds / 3600) * gatherRate`, which can land one below the exact value. 4176 s at rate 25 gives 28 in the source (the double is 28.999999999999996) and 29 here. `MissionSweep.Gathered` inherits this difference.
- Resources.RoundTenths: daily consumption times days is rounded exactly, halves up, in whole tenths. The source rounds the double product, so a tie can fall the other way. A daily need of 0.7 over 45 days gives `Math.round(31.499999999999996) = 31` in the source and 32 here.
- MapGenerator.Imul: the shift-and-add 32-bit product is not proved equal to multiplication modulo 2³²; it follows `Math.imul` bit by bit.
- Randomness and the clock: `Math.random()` and `new Date()` are parameters. The second clock read inside `createTravelerDates` is taken to equal the caller's `now`.
- Travelers.CreateTravelerDates: the travel dates are bounded, not fixed, because the random draws are parameters.
- Concurrency is modelled only through the compare-and-set of the daily consumption and the claim of a traveler, both as sequential steps. Interleavings of other requests are left out.
- MissionSweep.CompletePendingMissions: it requires the village's resources record to exist, because the source's increment would fail without one.
- Mission type: the sweep credits wood (`bois`) whatever the mission type, as the source does.
- Missing import: `create-mission.ts` imports a `manhattanDistance` that `distance.ts` does not export. The model uses the Chebyshev distance that the file does define.
- Unused fields: the source never writes `assignedBuilders`, which stays at its stored value. Loop missions never restart on their own in the source, and do not in the model either.
- Build time: the construction time of a building is the catalogue's `buildSeconds`, as the code has it. The code does not divide it by a worker count.
- Formatter inputs: both formatters are modelled on whole seconds. Fractional inputs are left out.
- The map statistics helper of the generator (`getStatistics`) is a display aid and is left out.

## Findings

| source | as written | input that shows it | evidently intended | confidence | as-written member | corrected member |
|---|---|---|---|---|---|---|
| lib/game/missions/create-mission.ts:41-45 | the target is accepted only when `cell.feature` is the forest feature, but generated map cells carry only `x`, `y` and `biome`, so the feature is always absent | any request, e.g. a forest cell at (5,5) with every other guard satisfied, is refused as not a forest | test the cell's biome for forest | not executed | Missions.CreateMissionAsWrittenNeverSucceeds | Missions.CreatedMissionStartsOutbound |
| lib/game/travelers/welcome-traveler.ts:41-44 | welcoming extends the stay but never records `welcomedAt`, while assignment refuses any traveler whose `welcomedAt` is empty | a traveler present at now, welcomed at now, then assigned one second later, is refused as not welcomed | record `welcomedAt := now` together with the extended stay | not executed | Travelers.AssignAfterWelcomeAsWrittenFails | Travelers.AssignAfterWelcomeSucceeds |
