# erfc launch planning and dispatch

A Dafny model of the host side of `mluOpErfc`, the complementary error
function operator of an MLU accelerator operator library. The host code
does not compute anything numeric. It reads the input tensor's element count
and plans a task grid `k_dim = (x, y, z)` from it. Then it launches the
pipelined device kernel `Kernel3StagePipelineErfc` once and returns that
kernel's status. Optional test-case recording (the `GEN_CASE_*` macros) can
bracket the call.

The model has three modules:

- `Machine` (machine.dfy): the C integer conversions on the path. The element
  count is stored in the `int` `element_num`, then passed to the kernel as
  `unsigned int N`. Both conversions are written out as two's-complement
  wrap-around of the low 32 bits.
- `Planner` (planner.dfy): the grid. `x` is always 4 (`len_kdimX`) and `z` is
  always 1. When `element_num <= 4 * WORKLOAD` (16384), `y` is 2. Otherwise
  `y` is two nested round-up divisions, first by `WORKLOAD` = 4096 and then
  by 4. The lemmas show that the composite is one round-up division by
  16384. They also show that the grid covers the count, that it is tight
  above the shortcut, that `y` is the least cover of at least two, and that
  `y` is monotone over the whole `int` range.
- `Dispatch` (dispatch.dfy): one call as a function. It returns a status and
  a trace of abstract events: `RecBegin`, `Kernel(grid, kType, dtype, n)`
  and `RecEnd`. The recording switch, the element count, the launch-policy
  result `k_type` and the kernel's returned status are all parameters.

Three behaviours of the code are worth stating plainly:

- Just above the shortcut, 16385 elements give `validNum` = ceil(16385/4096)
  = 5 and `y` = ceil(5/4) = 2 (`Planner.PlanExamples`).
- `CHECK_RETURN` at erfc/erfc.cpp:104-106 returns a failing kernel status
  before `GEN_CASE_END` at erfc/erfc.cpp:110 is reached. A recording session
  opened at lines 71-77 therefore stays open, and the trace of a failing call
  has no `RecEnd`.
- Parameter checking and the zero-element early return are commented out
  (erfc/erfc.cpp:59-70). So an empty tensor, or one of an unsupported data
  type, still reaches the kernel.

`GEN_CASE_END` is written unconditionally at erfc/erfc.cpp:110. As a
modelling choice, recording is reduced to begin and end events gated by the
recording switch, and `GEN_CASE_END` on the non-recording path is treated as
having no observable effect.

## Model

| member | source | states |
|---|---|---|
| Machine.ToInt | erfc/erfc.cpp:85 | The count stored in `int element_num` equals the count modulo 2^32, and it equals the count exactly when the count is at most INT_MAX |
| Machine.ToUnsigned | erfc/erfc.h:33-36 | The `int` passed as `unsigned int N` is congruent to it modulo 2^32, and it is unchanged exactly when it is non-negative |
| Machine.NarrowThenWiden | erfc/erfc.cpp:104-106 | The `N` the kernel receives is the descriptor's count modulo 2^32, so it is the count itself below 2^32 |
| Planner.RoundUpDiv | erfc/erfc.cpp:96-97 | The ternary `a % b == 0 ? a/b : a/b+1` yields the ceiling of a/b: a <= q*b < a+b |
| Planner.NestedRoundUpDiv | erfc/erfc.cpp:96-98 | Rounding up by WORKLOAD and then by 4 equals one round-up division by their product |
| Planner.PlanY | erfc/erfc.cpp:94-98 | y is at least 2, and it is 2 for every count up to 16384, including 0 and negative values |
| Planner.PlanYBound | erfc/erfc.cpp:85-98 | y never exceeds 131072 = ceil(INT_MAX/16384), so it fits the unsigned grid field |
| Planner.Plan | erfc/erfc.cpp:92-100 | The grid has x = 4 and z = 1 for every count |
| Planner.PlanExtentsPositive | erfc/erfc.cpp:92-100 | Every grid extent is at least 1, and y is at least 2 |
| Planner.PlanYClosedForm | erfc/erfc.cpp:94-98 | Above 16384, y = ceil(n / 16384) |
| Planner.PlanCovers | erfc/erfc.cpp:92-98 | Coverage: x*y*z*WORKLOAD >= n for every non-negative count |
| Planner.PlanTight | erfc/erfc.cpp:94-98 | Above 16384, one fewer row of tasks would not cover the count: x*(y-1)*WORKLOAD < n |
| Planner.PlanYIsLeastCover | erfc/erfc.cpp:94-98 | No k with 2 <= k < y covers the count, so y is the least cover that is at least 2 |
| Planner.PlanYMonotone | erfc/erfc.cpp:94-98 | y is non-decreasing in the count over the whole `int` range, across the branch boundary |
| Planner.PlanExamples | erfc/erfc.cpp:92-100 | 0, 1 and 16384 elements give (4,2,1); 16385 gives validNum 5 and (4,2,1); 100000 gives validNum 25 and (4,7,1) |
| Dispatch.Erfc | erfc/erfc.cpp:71-111 | The status is the kernel's status, unchanged. The trace holds exactly one kernel launch, with the grid planned from `element_num`, the given `k_type` and dtype, and `N` = `element_num` as unsigned. RecBegin("erfc") occurs iff recording is on, and no other begin event ever occurs. RecEnd occurs iff recording is on and the kernel succeeded. Begin comes first and end comes last |
| Dispatch.PlannedCountReachesKernel | erfc/erfc.cpp:85-106 | For counts up to INT_MAX, the kernel gets exactly the count the grid was planned for, and the grid covers it |
| Dispatch.RecordingTransparent | erfc/erfc.cpp:71-111 | Turning recording on or off changes neither the status nor the kernel launch |
| Dispatch.ZeroElementsStillLaunch | erfc/erfc.cpp:59-106 | A zero-element tensor still launches the kernel once, on grid (4,2,1) with N = 0 |
| Dispatch.UnsupportedTypeStillLaunches | erfc/erfc.cpp:57-106 | A data type outside {half, float} still reaches the kernel, and the status is the kernel's |
| Dispatch.NarrowedCountMisplans | erfc/erfc.cpp:85-106 | A count of 2^31 narrows to `element_num` = -2^31 and is planned as (4,2,1). The kernel still receives N = 2^31, which exceeds the grid's capacity |

## Left out

- `Kernel3StagePipelineErfc` itself (erfc/erfc.h:33-36), meaning its load/compute/store pipeline and the floating-point approximation of erfc. This is device code. The model reduces it to the status it returns, which is a parameter.
- `unaryOpPolicyFunc`, `mluOpGetTensorElementNum` and the handle's queue. These are library calls whose code is not part of this model. The element count and `k_type` are parameters, and the `k_dim` the policy call writes is overwritten anyway.
- The static `policyFunc` (erfc/erfc.cpp:35-48). It is never called, because its call is commented out.
- Parameter checking and the zero-element return (erfc/erfc.cpp:59-70). They are commented out, so the model has no validation path. The `support_type` array is used only by that disabled check.
- The `printf` and `VLOG` diagnostics, and the contents of the recording macros (handle, tensor data, tolerances). Recording appears only as begin and end events.
- `BATCH_SZ` (erfc/erfc.h:30). It is declared but never used.
- Queue asynchrony and device-side completion. These are concurrency and I/O.
- Machine.ToInt: the conversion of an out-of-range `size_t` to `int` is implementation-defined before C++20. The model fixes it to the usual two's-complement wrap of the low 32 bits.
