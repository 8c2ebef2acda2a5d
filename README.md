# Generator and shunt tables of the lightsim2grid grid model

This project models two per-element data tables of the lightsim2grid C++ power-flow
engine in Dafny: the generator table (`DataGen`) and the shunt table (`DataShunt`).
Each table is a class with parallel per-element vectors (active power, voltage
setpoint or reactive power, reactive limits, grid bus, status) and result vectors.
Its methods loop over the elements and write into buffers that the solver owns:

- the complex bus injection vector `Sbus`;
- the PV-bus list and its "already added" marks;
- the voltage magnitudes used by the DC approximation;
- the sparse admittance matrix (Y-bus).

Modelling choices:

- Values are Dafny `real`s. A complex number is a pair of reals (`Numeric.Complex`).
- The sparse Y-bus is a `SparseMatrix` object holding a map from `(row, col)`. An
  entry that is not stored reads as zero.
- The grid-to-solver bus map `id_grid_to_solver` is a `seq<int>`. Its
  "deactivated bus" sentinel is `Common.DeactivatedBus` (-1).
- Every C++ exception is an `Outcome`/`Result` error value.
- An exception thrown in the middle of a loop leaves the updates of the earlier
  iterations in place. The model states exactly this. `Common.FirstDeactivated` is
  the iteration at which the loop stops, and the new state is the effect of the
  elements before it.

Modules:

- `numeric.dfy`: `Numeric`, complex arithmetic and the sparse matrix.
- `common.dfy`: `Common`, the sentinel, the error types, and the per-bus
  accumulators `SumAt` and `CountAt` with their lemmas.
- `data_gen.dfy`: `GenTable`, the generator table.
- `data_shunt.dfy`: `ShuntTable`, the shunt table.

What the initialisation code checks:

- `DataGen::init` checks only that `min_q` and `max_q` have the same length and
  that `min_q <= max_q`. `DataShunt::init` checks nothing. Neither checks the
  input vectors' lengths against each other, nor bus ids against the number of buses.
- `DataGen::init` stores the five input vectors before it validates them. A failed
  `init` therefore changes those fields but leaves `status_` as it was.

## Model

| member | source | states |
|---|---|---|
| `Common.FirstDeactivated` | src/DataGen.cpp:41-44 | the index at which a loop over the elements throws: every connected element before it has an active solver bus, and the element there (if any) is connected and on the deactivated-bus sentinel |
| `Common.SumAtAbsent` | src/DataGen.cpp:35-47 | a bus with no connected generator receives nothing, so its Sbus entry is unchanged |
| `Common.SumOverBusesIsTotal` | src/DataGen.cpp:35-47 | when every connected generator has a solver bus in range, the active power added over all buses equals the sum of `p` over the connected generators |
| `Common.CountAtZeroIff` | src/DataGen.cpp:159-166 | a bus's generator count is 0 exactly when no connected generator sits on it |
| `Common.CountAtAlone` | src/DataGen.cpp:185-187 | a generator that is the only connected one on its bus makes that bus's count 1 |
| `GenTable.ValidateQLimits` | src/DataGen.cpp:23-27 | fails with a size error when `min_q` and `max_q` differ in length, with an ordering error when some `min_q > max_q`, and passes otherwise |
| `GenTable.DataGen.Init` | src/DataGen.cpp:12-29 | stores the five vectors in every case; on success every generator is connected and `status_` has one entry per active setpoint; on failure `status_` is unchanged |
| `GenTable.DataGen.FillSbus` | src/DataGen.cpp:31-48 | each Sbus entry gains the sum of `p` over the connected generators on that solver bus (imaginary part unchanged); disconnected generators add nothing; the call throws exactly when a connected generator maps to the sentinel, keeping the additions made before it |
| `GenTable.DataGen.FillPv` | src/DataGen.cpp:50-72 | the PV list and marks become those that fillpv's iterations produce up to the first connected generator on the sentinel bus, which makes the call throw |
| `GenTable.PvAfterAppends` | src/DataGen.cpp:57-71 | the old PV list stays a prefix; each appended bus is not the slack bus, was unmarked before, is marked after and appears once; a bus is marked after exactly when it was marked before or was appended |
| `GenTable.PvAfterCovers` | src/DataGen.cpp:67-70 | afterwards every connected generator's solver bus other than the slack bus is marked |
| `GenTable.PvAfterConsistent` | src/DataGen.cpp:68-70 | if the PV list had no duplicates and all its buses were marked, both still hold afterwards |
| `GenTable.DataGen.GetVmForDc` | src/DataGen.cpp:92-102 | as written: a bus carrying a connected generator takes `vm_pu_[bus]` (indexed by bus id) when that is nonzero; every other entry of `Vm` is unchanged |
| `GenTable.DataGen.GetVmForDcFixed` | src/DataGen.cpp:92-102 | corrected: each bus takes the nonzero setpoint of the last connected generator on it, and keeps its value when there is none |
| `GenTable.LastSetpointOfBusGen` | src/DataGen.cpp:95-101 | corrected: a bus either keeps its value or takes the nonzero setpoint of a connected generator attached to that same bus |
| `GenTable.LastSetpointAgreed` | src/DataGen.cpp:95-101 | corrected: when the connected generators on a bus agree on a nonzero setpoint, the bus takes that setpoint |
| `GenTable.DcVmIndexMixup` | src/DataGen.cpp:99 | counterexample: generator 0 on bus 1 (1.02) and generator 1 on bus 0 (1.05) give `[1.02, 1.05]` as written and `[1.05, 1.02]` as intended |
| `GenTable.DataGen.ChangeP` | src/DataGen.cpp:104-109 | fails for an index past the end or a disconnected generator; otherwise changes entry `gen_id` of `p_mw_` and nothing else |
| `GenTable.DataGen.ChangeV` | src/DataGen.cpp:111-116 | the same guard; otherwise changes entry `gen_id` of `vm_pu_` and nothing else |
| `GenTable.DataGen.SlackBusId` | src/DataGen.cpp:140-145 | returns the generator's grid bus exactly when the index is in range and the generator is connected; otherwise fails, out-of-range before disconnected |
| `GenTable.DataGen.SetPSlack` | src/DataGen.cpp:147-151 | the same guard; otherwise overwrites only that entry of `res_p_` |
| `GenTable.DataGen.InitQVector` | src/DataGen.cpp:153-167 | for every grid bus below `nb_bus`: the count of connected generators on it, and the sums of their `min_q` and `max_q` (0 where there are none) |
| `GenTable.DataGen.SetQ` | src/DataGen.cpp:169-199 | `res_q_` gets one entry per generator: 0 when disconnected, the bus's whole reactive power when its bus count is 1, else the share in proportion to its widened Q range |
| `GenTable.QDenominatorBound` | src/DataGen.cpp:189 | with `min_q <= max_q` (guaranteed by init), a connected generator's bus count is at least 1 and the split's denominator is at least `count * eps_q > 0` |
| `GenTable.QSplitDefinedFromInit` | src/DataGen.cpp:180-189 | with the totals of init_q_vector and ordered limits, every share set_q computes is well defined |
| `GenTable.QShareAlone` | src/DataGen.cpp:186-187 | a generator alone on its bus receives all of `q_by_bus[bus]` |
| `GenTable.QSharesSumShared` | src/DataGen.cpp:189-192 | with several generators on a bus whose totals are the sums over them, the proportional shares add up to `q_by_bus[bus]` |
| `GenTable.QSharesSumOnBus` | src/DataGen.cpp:186-192 | the shares on a bus sum to `q_by_bus[bus]` whenever the bus totals are the sums over its connected generators |
| `GenTable.QSharesSumToBusQ` | src/DataGen.cpp:153-198 | with totals from init_q_vector under the same statuses, the shares on each generator's bus sum to `q_by_bus[bus]` |
| `GenTable.DataGen.ComputeResults` | src/DataGen.cpp:74-84 | `res_p_` becomes `p_mw_` and `res_v_` the converter's output; `res_q_` is untouched |
| `GenTable.DataGen.ResetResults` | src/DataGen.cpp:86-90 | the three result vectors become empty |
| `ShuntTable.DataShunt.Init` | src/DataShunt.cpp:3-11 | stores the three vectors and connects every shunt, one status per active power |
| `ShuntTable.DataShunt.FillYbus` | src/DataShunt.cpp:13-30 | the matrix becomes the one the shunts before the first connected shunt on the sentinel bus produce; the call throws exactly when such a shunt exists |
| `ShuntTable.ShuntsSubtractedCoeff` | src/DataShunt.cpp:17-29 | each diagonal coefficient `(b, b)` loses the sum of `p + i q` over the connected shunts on solver bus `b`; off-diagonal coefficients are unchanged; disconnected shunts contribute nothing |
| `ShuntTable.ShuntsSubtractedAbsent` | src/DataShunt.cpp:17-29 | a bus without connected shunts keeps its diagonal coefficient |
| `ShuntTable.ShuntsSubtractedKeys` | src/DataShunt.cpp:28 | the stored entries become the old ones plus the diagonal entries of the connected shunts' buses |
| `ShuntTable.ShuntPower` | src/DataShunt.cpp:50-56 | `s = E * conj(y * E)` with `y = -(p + i q)` equals `(-p * abs(E)^2, q * abs(E)^2)` |
| `ShuntTable.DataShunt.ComputeResults` | src/DataShunt.cpp:32-58 | `res_p_` and `res_q_` get one entry per shunt: 0 for disconnected shunts, the drawn power for connected ones; the call throws at the first connected shunt on the sentinel bus, leaving later entries 0 |
| `ShuntTable.DataShunt.ResetResults` | src/DataShunt.cpp:60-64 | the three result vectors become empty |

## Left out

- `DataGen::set_vm` (src/DataGen.cpp:118-138) is not modelled. It needs the complex modulus `abs(V)`, which takes a square root. Its sentinel check is the same one that `FillSbus` and `FillPv` model.
- `v_kv_from_vpu` is defined in a file that is not part of this model. Its output `res_v_` enters `ComputeResults` as the parameter `vKv`. The model does not capture any exception it may throw.
- The header files are not part of this model. The model assumes the following from them:
  - `nb()` is the length of `p_mw_`.
  - `_deactivated_bus_id` is -1.
  - Status changes (deactivate/reactivate) are made by code outside this model. The `status` field can hold any value.
- IEEE-754 doubles are modelled as exact reals. Rounding, NaN and infinities are not modelled.
- The `ac` and `need_reset` parameters are not modelled. They carry no behaviour.
- Exception messages are not modelled. Only the error kind is kept.
- `bus_pv` is a `std::vector` that `fillpv` extends in place. `FillPv` takes it as a value and returns the extended list.
- GenTable.DataGen.FillSbus: requires one entry per element in each per-element vector it reads, and a valid bus index for every connected element. The source needs this only for the entries it actually reads, and never reads past the element that throws.
- GenTable.DataGen.FillPv: requires one entry per element in each per-element vector it reads, and a valid bus index for every connected element. The source needs this only for the entries it actually reads, and never reads past the element that throws.
- GenTable.DataGen.GetVmForDc: requires one entry per element in each per-element vector it reads, and a valid bus index for every connected element. The source needs this only for the entries it actually reads, and never reads past the element that throws.
- GenTable.DataGen.InitQVector: requires one entry per element in each per-element vector it reads, and a valid bus index for every connected element. The source needs this only for the entries it actually reads, and never reads past the element that throws.
- GenTable.DataGen.SetQ: requires one entry per element in each per-element vector it reads, and a valid bus index for every connected element. The source needs this only for the entries it actually reads, and never reads past the element that throws.
- ShuntTable.DataShunt.FillYbus: requires one entry per element in each per-element vector it reads, and a valid bus index for every connected element. The source needs this only for the entries it actually reads, and never reads past the element that throws.
- ShuntTable.DataShunt.ComputeResults: requires one entry per element in each per-element vector it reads, and a valid bus index for every connected element. The source needs this only for the entries it actually reads, and never reads past the element that throws.
- GenTable.DataGen.SetQ: requires every share's denominator to be nonzero. In doubles a zero denominator gives an infinite or NaN share. `GenTable.QSplitDefinedFromInit` proves that the denominator is nonzero whenever the totals come from `init_q_vector` and the limits passed `init`.

## Findings

| source | as written | input that shows it | evidently intended | confidence | as-written member | corrected member |
|---|---|---|---|---|---|---|
| src/DataGen.cpp:99 | `vm_pu_` is indexed by the generator's bus id (`vm_pu_(bus_id_me)`), although `vm_pu_` holds one setpoint per generator (`change_v` and `set_vm` index it by `gen_id`) | two connected generators: generator 0 on bus 1 with setpoint 1.02, generator 1 on bus 0 with setpoint 1.05, `Vm = [1, 1]`; as written `Vm` becomes `[1.02, 1.05]`, so each bus gets the other generator's setpoint (`GenTable.DcVmIndexMixup`) | read the setpoint at `gen_id`, giving `[1.05, 1.02]` | high; not executed | `GenTable.DataGen.GetVmForDc` | `GenTable.DataGen.GetVmForDcFixed` |
