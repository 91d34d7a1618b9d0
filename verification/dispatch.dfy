/** The dispatch contract of `mluOpErfc`: optional test-case recording around
    one kernel launch, with the kernel's status handed back unchanged.

    The device kernel, the launch-policy library call and the recording
    macros are external; a call is described by its status and by the trace
    of abstract events it produces.
 */
module Dispatch {
  import opened Machine
  import opened Planner

  /** `mluOpStatus_t`: success, or any failure code the kernel reports. */
  datatype Status = Success | Failure(code: nat)

  /** `mluOpDataType_t` of the input descriptor. Only half and float are
      supported, but with parameter checking inactive any type is passed on. */
  datatype DataType = Half | Float | OtherType(code: nat)

  /** `cnrtFunctionType_t` chosen by the launch-policy library; opaque here. */
  datatype FunctionType = FunctionType(tag: nat)

  /** Observable steps of one call. */
  datatype Event =
    | RecBegin(op: string)
    | Kernel(grid: Grid, kType: FunctionType, dtype: DataType, n: Uint32)
    | RecEnd

  datatype Outcome = Outcome(status: Status, trace: seq<Event>)

  /** The kernel launches in a trace, in order. */
  function KernelCalls(t: seq<Event>): (r: seq<Event>)
    ensures |r| <= |t|
    ensures forall i :: 0 <= i < |r| ==> r[i].Kernel? && r[i] in t
    ensures forall e :: e in t && e.Kernel? ==> e in r
  {
    if |t| == 0 then []
    else if t[0].Kernel? then [t[0]] + KernelCalls(t[1..])
    else KernelCalls(t[1..])
  }

  /** Kernel launches of a concatenation are those of each part, in order. */
  lemma {:induction false} KernelCallsAppend(s: seq<Event>, t: seq<Event>)
    ensures KernelCalls(s + t) == KernelCalls(s) + KernelCalls(t)
  {
    if |s| > 0 {
      assert (s + t)[1..] == s[1..] + t;
      KernelCallsAppend(s[1..], t);
    } else {
      assert s + t == t;
    }
  }

  /** Recording brackets the call: a session, if opened, is opened before
      anything else, and a close comes last and only after an open. */
  predicate Bracketed(t: seq<Event>) {
    && (forall i :: 0 < i < |t| ==> !t[i].RecBegin?)
    && (forall i :: 0 <= i < |t| - 1 ==> !t[i].RecEnd?)
    && (RecEnd in t ==> |t| > 0 && t[0].RecBegin?)
  }

  /** One call of `mluOpErfc` with `genCase` standing for the recording
      switch, `count` for the input descriptor's element count (stored in
      the `int` `element_num` by ToInt), `kType` for
      what the launch-policy call chose and `kernelStatus` for what the
      kernel launch returns. */
  function Erfc(genCase: bool, count: nat, dtype: DataType, kType: FunctionType,
                kernelStatus: Status): (r: Outcome)
    ensures r.status == kernelStatus
    ensures Bracketed(r.trace)
    ensures |KernelCalls(r.trace)| == 1
    ensures (RecBegin("erfc") in r.trace) <==> genCase
    ensures forall e :: e in r.trace && e.RecBegin? ==> genCase && e == RecBegin("erfc")
    ensures RecEnd in r.trace <==> genCase && kernelStatus == Success
    ensures var k := KernelCalls(r.trace)[0];
      && k.grid == Plan(ToInt(count))
      && k.kType == kType && k.dtype == dtype
      && k.n == ToUnsigned(ToInt(count))
  {
    var elementNum := ToInt(count);
    var grid := Plan(elementNum);
    var begin := if genCase then [RecBegin("erfc")] else [];
    var launch := [Kernel(grid, kType, dtype, ToUnsigned(elementNum))];
    if kernelStatus != Success then
      KernelCallsAppend(begin, launch);
      Outcome(kernelStatus, begin + launch)
    else
      var end := if genCase then [RecEnd] else [];
      KernelCallsAppend(begin + launch, end);
      KernelCallsAppend(begin, launch);
      Outcome(Success, begin + launch + end)
  }

  /** For every count an `int` can hold, the kernel is given exactly the
      count the grid was planned for, and the grid covers it. */
  lemma PlannedCountReachesKernel(genCase: bool, count: nat, dtype: DataType,
                                  kType: FunctionType, kernelStatus: Status)
    requires count <= INT_MAX
    ensures var k := KernelCalls(Erfc(genCase, count, dtype, kType, kernelStatus).trace)[0];
      && k.n == count
      && k.grid == Plan(count)
      && count <= Capacity(k.grid)
  {
    PlanCovers(count);
  }

  /** Recording has no effect on what the call does: the status and the
      kernel launch are the same with the switch on or off. */
  lemma RecordingTransparent(count: nat, dtype: DataType, kType: FunctionType,
                             kernelStatus: Status)
    ensures Erfc(true, count, dtype, kType, kernelStatus).status
         == Erfc(false, count, dtype, kType, kernelStatus).status
    ensures KernelCalls(Erfc(true, count, dtype, kType, kernelStatus).trace)
         == KernelCalls(Erfc(false, count, dtype, kType, kernelStatus).trace)
  {
    var on := Erfc(true, count, dtype, kType, kernelStatus).trace;
    var off := Erfc(false, count, dtype, kType, kernelStatus).trace;
    var k := Kernel(Plan(ToInt(count)), kType, dtype, ToUnsigned(ToInt(count)));
    assert off == [k];
    assert on[1..] == [k] || on[1..] == [k, RecEnd];
    assert KernelCalls([RecEnd]) == [];
  }

  /** With parameter checking inactive there is no zero-element shortcut:
      an empty tensor still launches the kernel on the small-case grid. */
  lemma ZeroElementsStillLaunch(genCase: bool, dtype: DataType, kType: FunctionType,
                                kernelStatus: Status)
    ensures KernelCalls(Erfc(genCase, 0, dtype, kType, kernelStatus).trace)
         == [Kernel(Grid(4, 2, 1), kType, dtype, 0)]
  {
  }

  /** Nor is the data type checked: an unsupported type reaches the kernel,
      and the call's status is whatever the kernel says. */
  lemma UnsupportedTypeStillLaunches(genCase: bool, count: nat, code: nat,
                                     kType: FunctionType, kernelStatus: Status)
    ensures var r := Erfc(genCase, count, OtherType(code), kType, kernelStatus);
      && r.status == kernelStatus
      && KernelCalls(r.trace)[0].dtype == OtherType(code)
  {
  }

  /** A count above INT_MAX is narrowed before planning: 2^31 elements
      become `element_num == -2^31`, which takes the small-case branch, while
      the kernel is told the full 2^31. The grid then provides for far fewer
      elements than the kernel is given. */
  lemma NarrowedCountMisplans(genCase: bool, dtype: DataType, kType: FunctionType,
                              kernelStatus: Status)
    ensures var k := KernelCalls(Erfc(genCase, TWO_31, dtype, kType, kernelStatus).trace)[0];
      && ToInt(TWO_31) == -0x8000_0000
      && k.grid == Grid(4, 2, 1)
      && k.n == TWO_31
      && Capacity(k.grid) < k.n
  {
  }
}
