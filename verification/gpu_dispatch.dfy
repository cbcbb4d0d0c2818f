/** The control flow of the accelerator kernel's QrOpGpu::ComputeAsync: the
    order in which it allocates, enqueues device work and reports completion,
    and which outcome it reports. One invocation is recorded as a trace of
    events: the collaborator calls it made, in order, and the invocations of
    the completion callback `done`, each with the status the kernel context
    holds at that moment.

    Collaborators are not modelled beyond their answers: `fails(s)` says
    whether call s returns an error status (allocations, transposes, the
    solver calls and the asynchronous copy of the solver's info codes), and
    `infoOk` whether those copied info codes are all zero, which decides the
    status handed to the host callback. */
module GpuDispatch {
  import opened Shapes
  import GpuQr
  import Permutation

  /** The tensors an invocation touches. */
  datatype Buffer = Input | InputTransposed | Tau | QOutput | ROutput

  /** A collaborator call made while enqueuing. */
  datatype Step =
    | AllocOutput(out: Buffer, shape: Shape)
    | AllocTemp(tmp: Buffer, shape: Shape)
    | DoTranspose(src: Buffer, dst: Buffer)
    | Geqrf(batch: nat)
    | Geam(batch: nat)
    | BandPart
    | Orgqr(batch: nat)
    | CopyInfoAsync

  /** The status `done` observes. */
  datatype Status =
    | Ok
    | InvalidArgument
    | Unimplemented
    | Failed(at: Step)      // a collaborator call returned an error status
    | SolverFailure         // the host callback received a non-zero info code

  datatype Event = Call(step: Step) | Done(status: Status)

  /** The collaborators' answers for one invocation. */
  datatype Env = Env(fails: Step -> bool, infoOk: bool)

  /** Every call whose status the kernel checks; the band-part functor returns
      nothing. */
  predicate Checked(s: Step) {
    !s.BandPart?
  }

  /** Work enqueued on the device stream. */
  predicate DeviceWork(s: Step) {
    s.DoTranspose? || s.Geqrf? || s.Geam? || s.BandPart? || s.Orgqr?
  }

  /** Number of invocations of `done` in a trace. */
  function DoneCount(t: seq<Event>): nat {
    if |t| == 0 then 0
    else DoneCount(t[..|t| - 1]) + (if t[|t| - 1].Done? then 1 else 0)
  }

  predicate AllCalls(t: seq<Event>) {
    forall i :: 0 <= i < |t| ==> t[i].Call?
  }

  /** `done` was invoked exactly once, as the last event: nothing is enqueued
      after completion is signalled. */
  predicate CompletesOnce(t: seq<Event>) {
    |t| > 0 && t[|t| - 1].Done? && DoneCount(t) == 1
  }

  /** The status the invocation completed with. */
  function Outcome(t: seq<Event>): Status
    requires CompletesOnce(t)
  {
    t[|t| - 1].status
  }

  /** One call per matrix of the batch, in batch order. */
  function PerBatch(count: nat, step: nat -> Step): (t: seq<Event>)
    ensures |t| == count && AllCalls(t)
  {
    seq(count, b requires 0 <= b < count => Call(step(b)))
  }

  /** The fault-free enqueue sequence, stage by stage. */
  function Prologue(input: Shape, full: bool): seq<Event>
    requires |input| >= 2
  {
    var o := GpuOutputShapes(input, full);
    [Call(AllocOutput(QOutput, o.q)), Call(AllocOutput(ROutput, o.r))]
  }

  function Scratch(input: Shape): seq<Event>
    requires |input| >= 2
  {
    [Call(AllocTemp(InputTransposed, TransposedShape(input))),
     Call(AllocTemp(Tau, TauShape(input))),
     Call(DoTranspose(Input, InputTransposed))]
  }

  function RStage(input: Shape, full: bool): seq<Event>
    requires |input| >= 2
  {
    (if full || Rows(input) == Cols(input) then [Call(DoTranspose(InputTransposed, ROutput))]
     else PerBatch(BatchSize(input), (b: nat) => Geam(b)))
    + [Call(BandPart)]
  }

  /** Orgqr on every matrix, the transpose back to row-major, and the
      asynchronous copy of the info codes. */
  function QStage(input: Shape): seq<Event>
    requires |input| >= 2
  {
    PerBatch(BatchSize(input), (b: nat) => Orgqr(b))
    + [Call(DoTranspose(InputTransposed, QOutput)), Call(CopyInfoAsync)]
  }

  /** Everything enqueued for a non-empty input after the outputs are
      allocated, up to and including the band part, which is reached whether
      or not Q is supported. */
  function FactorStage(input: Shape, full: bool): seq<Event>
    requires |input| >= 2
  {
    Scratch(input) + PerBatch(BatchSize(input), (b: nat) => Geqrf(b)) + RStage(input, full)
  }

  /** The calls an invocation on a rank >= 2 input makes when none of them
      fails: the output allocations; then, for a non-empty input, the
      factorization stage; then, when Q is supported, the Q stage. */
  function Enqueued(input: Shape, full: bool): seq<Event>
    requires |input| >= 2
  {
    Prologue(input, full) + AfterOutputs(input, full)
  }

  function AfterOutputs(input: Shape, full: bool): seq<Event>
    requires |input| >= 2
  {
    if NumElements(input) == 0 then []
    else FactorStage(input, full) + if GpuQr.QSupported(Rows(input), Cols(input), full) then QStage(input) else []
  }

  /** The status `done` observes when none of the Enqueued calls fails. */
  function Completion(input: Shape, full: bool, infoOk: bool): Status
    requires |input| >= 2
  {
    if NumElements(input) == 0 then Ok
    else if !GpuQr.QSupported(Rows(input), Cols(input), full) then Unimplemented
    else if infoOk then Ok
    else SolverFailure
  }

  lemma {:induction false} DoneCountAllCalls(t: seq<Event>)
    requires AllCalls(t)
    ensures DoneCount(t) == 0
    decreases |t|
  {
    if |t| > 0 {
      DoneCountAllCalls(t[..|t| - 1]);
    }
  }

  /** A checked call that returned an error status. */
  predicate Faulty(e: Event, env: Env) {
    e.Call? && Checked(e.step) && env.fails(e.step)
  }

  /** No checked call the trace records returned an error status. */
  predicate CallsSucceeded(t: seq<Event>, env: Env)
    decreases |t|
  {
    |t| == 0 || (!Faulty(t[0], env) && CallsSucceeded(t[1..], env))
  }

  /** Enqueuing `calls` one after another, each under OP_REQUIRES_OK_ASYNC:
      every call up to the first one that fails, then `done` with that call's
      failure; all of them when none fails. */
  function Cut(calls: seq<Event>, env: Env): seq<Event>
    decreases |calls|
  {
    if |calls| == 0 then []
    else if Faulty(calls[0], env) then [Done(Failed(calls[0].step))]
    else [calls[0]] + Cut(calls[1..], env)
  }

  /** Enqueuing `calls` and then, unless one of them failed, invoking `done`
      with `last`. */
  function Run(calls: seq<Event>, env: Env, last: Status): seq<Event> {
    Cut(calls, env) + if CallsSucceeded(calls, env) then [Done(last)] else []
  }

  /** Call i of `calls` is the first checked call that fails. */
  predicate FirstFault(calls: seq<Event>, i: nat, env: Env)
    requires i < |calls|
  {
    Faulty(calls[i], env) && CallsSucceeded(calls[..i], env)
  }

  /** After `t`, the run made the calls of `calls` up to their first failing
      checked call and then completed with that call's failure. */
  predicate StopsAtFault(trace: seq<Event>, t: seq<Event>, calls: seq<Event>, env: Env) {
    exists i: nat :: i < |calls| && FirstFault(calls, i, env)
                     && trace == t + calls[..i] + [Done(Failed(calls[i].step))]
  }

  /** CallsSucceeded means what it says: no recorded checked call failed. */
  lemma {:induction false} CallsSucceededMeans(t: seq<Event>, env: Env)
    ensures CallsSucceeded(t, env) <==> forall i :: 0 <= i < |t| ==> !Faulty(t[i], env)
    decreases |t|
  {
    if |t| > 0 {
      CallsSucceededMeans(t[1..], env);
      assert forall i :: 1 <= i < |t| ==> t[i] == t[1..][i - 1];
    }
  }

  /** Enqueuing one sequence of calls after another: the second runs only when
      every call of the first succeeded. */
  lemma {:induction false} CutConcat(a: seq<Event>, b: seq<Event>, env: Env)
    ensures CallsSucceeded(a + b, env) <==> CallsSucceeded(a, env) && CallsSucceeded(b, env)
    ensures Cut(a + b, env) == if CallsSucceeded(a, env) then a + Cut(b, env) else Cut(a, env)
    decreases |a|
  {
    if |a| == 0 {
      assert a + b == b;
    } else {
      assert (a + b)[0] == a[0];
      assert (a + b)[1..] == a[1..] + b;
      CutConcat(a[1..], b, env);
      if CallsSucceeded(a, env) {
        assert a == [a[0]] + a[1..];
      }
    }
  }

  /** When every call succeeds the run records them all; otherwise it stops
      at the first failing one. */
  lemma {:induction false} CutSpec(calls: seq<Event>, env: Env)
    ensures CallsSucceeded(calls, env) ==> Cut(calls, env) == calls
    ensures !CallsSucceeded(calls, env) ==> StopsAtFault(Cut(calls, env), [], calls, env)
    decreases |calls|
  {
    if |calls| > 0 {
      var c := calls[0];
      var tl := calls[1..];
      CutSpec(tl, env);
      if Faulty(c, env) {
        assert calls[..0] == [];
        assert FirstFault(calls, 0, env);
        assert Cut(calls, env) == [] + calls[..0] + [Done(Failed(calls[0].step))];
      } else if CallsSucceeded(tl, env) {
        assert calls == [c] + tl;
      } else {
        var i: nat :| i < |tl| && FirstFault(tl, i, env)
                      && Cut(tl, env) == [] + tl[..i] + [Done(Failed(tl[i].step))];
        var pre := [c] + tl[..i];
        assert pre[0] == c && pre[1..] == tl[..i];
        assert calls[..i + 1] == pre;
        assert calls[i + 1] == tl[i];
        assert FirstFault(calls, i + 1, env);
        assert Cut(calls, env) == [] + calls[..i + 1] + [Done(Failed(calls[i + 1].step))];
      }
    }
  }

  /** Run, stated in terms of the calls it makes: all of them followed by
      `done` with `last` when none fails, otherwise the calls before the first
      failing one followed by `done` with its failure. Either way `done` is
      invoked exactly once, last, and every recorded call succeeded. */
  lemma RunSpec(calls: seq<Event>, env: Env, last: Status)
    requires AllCalls(calls)
    ensures CallsSucceeded(calls, env) ==> Run(calls, env, last) == calls + [Done(last)]
    ensures !CallsSucceeded(calls, env) ==> StopsAtFault(Run(calls, env, last), [], calls, env)
    ensures CompletesOnce(Run(calls, env, last)) && CallsSucceeded(Run(calls, env, last), env)
    ensures CallsSucceeded(calls, env) ==> Outcome(Run(calls, env, last)) == last
    ensures !CallsSucceeded(calls, env) ==>
              var o := Outcome(Run(calls, env, last));
              o.Failed? && env.fails(o.at) && Checked(o.at)
  {
    CutSpec(calls, env);
    var trace := Run(calls, env, last);
    if CallsSucceeded(calls, env) {
      CompleteAfterCalls(calls, last);
      CutConcat(calls, [Done(last)], env);
    } else {
      var i: nat :| i < |calls| && FirstFault(calls, i, env)
                    && Cut(calls, env) == [] + calls[..i] + [Done(Failed(calls[i].step))];
      var pre := calls[..i];
      assert trace == pre + [Done(Failed(calls[i].step))];
      CompleteAfterCalls(pre, Failed(calls[i].step));
      CutConcat(pre, [Done(Failed(calls[i].step))], env);
    }
  }

  /** One stage after another, as the methods below enqueue them: the second
      stage starts from the first one's calls when they all succeeded, and
      otherwise the first stage's failure ends the run. */
  lemma Then(t: seq<Event>, a: seq<Event>, b: seq<Event>, env: Env)
    ensures CallsSucceeded(a, env) ==> Cut(a, env) == a && t + a + Cut(b, env) == t + Cut(a + b, env)
    ensures !CallsSucceeded(a, env) ==> t + Cut(a, env) == t + Cut(a + b, env)
    ensures CallsSucceeded(a + b, env) <==> CallsSucceeded(a, env) && CallsSucceeded(b, env)
  {
    CutConcat(a, b, env);
    CutSpec(a, env);
  }

  /** Running calls that all succeed and then more calls is recording the
      first ones and running the rest. */
  lemma RunAfter(a: seq<Event>, b: seq<Event>, env: Env, last: Status)
    requires CallsSucceeded(a, env)
    ensures Run(a + b, env, last) == a + Run(b, env, last)
  {
    CutConcat(a, b, env);
    var x := if CallsSucceeded(b, env) then [Done(last)] else [];
    assert a + Cut(b, env) + x == a + (Cut(b, env) + x);
  }

  lemma {:induction false} CallsSucceededAt(t: seq<Event>, i: nat, env: Env)
    requires CallsSucceeded(t, env) && i < |t|
    ensures !Faulty(t[i], env)
    decreases i
  {
    if i > 0 {
      CallsSucceededAt(t[1..], i - 1, env);
    }
  }

  /** The failure a run stops at is determined by the calls: two runs that
      both stop at a fault of the same calls are the same run. */
  lemma StopsAtFaultUnique(x: seq<Event>, y: seq<Event>, t: seq<Event>, calls: seq<Event>, env: Env)
    requires StopsAtFault(x, t, calls, env) && StopsAtFault(y, t, calls, env)
    ensures x == y
  {
    var i: nat :| i < |calls| && FirstFault(calls, i, env)
                  && x == t + calls[..i] + [Done(Failed(calls[i].step))];
    var j: nat :| j < |calls| && FirstFault(calls, j, env)
                  && y == t + calls[..j] + [Done(Failed(calls[j].step))];
    if i < j {
      CallsSucceededAt(calls[..j], i, env);
    } else if j < i {
      CallsSucceededAt(calls[..i], j, env);
    }
  }

  /** Appending the completion to a trace of calls completes it exactly once. */
  lemma CompleteAfterCalls(t: seq<Event>, st: Status)
    requires AllCalls(t)
    ensures CompletesOnce(t + [Done(st)]) && Outcome(t + [Done(st)]) == st
  {
    assert (t + [Done(st)])[..|t|] == t;
    DoneCountAllCalls(t);
  }

  /** Every transpose the kernel enqueues fits its destination: the source
      shape permuted by the kernel's permutation is the destination's shape.
      The packed buffer transposes onto R in full mode or for a square input,
      and onto Q exactly in the supported case. */
  lemma TransposeDestinationsFit(input: Shape, full: bool)
    requires |input| >= 2
    ensures var perm := Permutation.TransposePerm(|input|);
            var o := GpuOutputShapes(input, full);
            && Permutation.Gather(input, perm) == TransposedShape(input)
            && Permutation.Gather(TransposedShape(input), perm) == input
            && ((full || Rows(input) == Cols(input)) ==> Permutation.Gather(TransposedShape(input), perm) == o.r)
            && (Permutation.Gather(TransposedShape(input), perm) == o.q <==>
                GpuQr.QSupported(Rows(input), Cols(input), full))
  {
    var t := TransposedShape(input);
    Permutation.GatherScatterSwap(input);
    Permutation.GatherScatterSwap(t);
    assert Permutation.SwapLastTwo(t) == input;
    var o := GpuOutputShapes(input, full);
    if input == o.q {
      assert Cols(input) == Cols(o.q);
    }
  }

  /** The axes whose extents the kernel reads, as written: dim_size(ndims - 2)
      and dim_size(ndims - 1), evaluated before the rank is checked. */
  function AxesReadBeforeRankCheck(input: Shape): (axes: seq<int>)
    ensures |axes| == 2
  {
    [|input| - 2, |input| - 1]
  }

  /** As written, every input the rank check rejects has already had an axis
      outside its shape read; a rank-1 input of shape [7] reads axis -1. */
  lemma RankCheckComesTooLate(input: Shape)
    requires |input| < 2
    ensures exists a :: a in AxesReadBeforeRankCheck(input) && !(0 <= a < |input|)
    ensures AxesReadBeforeRankCheck([7])[0] == -1
  {
    assert AxesReadBeforeRankCheck(input)[0] in AxesReadBeforeRankCheck(input);
  }

  lemma AllCallsConcat(a: seq<Event>, b: seq<Event>)
    requires AllCalls(a) && AllCalls(b)
    ensures AllCalls(a + b)
  {
    forall k | 0 <= k < |a + b|
      ensures (a + b)[k].Call?
    {
      if k >= |a| {
        assert (a + b)[k] == b[k - |a|];
      }
    }
  }

  /** Every stage is made of collaborator calls only. */
  lemma StagesAreCalls(input: Shape, full: bool)
    requires |input| >= 2
    ensures AllCalls(FactorStage(input, full)) && AllCalls(QStage(input)) && AllCalls(Enqueued(input, full))
  {
    var s := Scratch(input);
    var geqrf := PerBatch(BatchSize(input), (b: nat) => Geqrf(b));
    var r := RStage(input, full);
    var r0 := if full || Rows(input) == Cols(input) then [Call(DoTranspose(InputTransposed, ROutput))]
              else PerBatch(BatchSize(input), (b: nat) => Geam(b));
    AllCallsConcat(r0, [Call(BandPart)]);
    AllCallsConcat(s, geqrf);
    AllCallsConcat(s + geqrf, r);
    AllCallsConcat(PerBatch(BatchSize(input), (b: nat) => Orgqr(b)),
                   [Call(DoTranspose(InputTransposed, QOutput)), Call(CopyInfoAsync)]);
    var tail := if GpuQr.QSupported(Rows(input), Cols(input), full) then QStage(input) else [];
    AllCallsConcat(FactorStage(input, full), tail);
    AllCallsConcat(Prologue(input, full), AfterOutputs(input, full));
  }

  /** The outcome of an invocation on a rank >= 2 input, read off the run of
      its Enqueued calls. */
  lemma RunOutcome(input: Shape, full: bool, env: Env)
    requires |input| >= 2
    ensures var calls := Enqueued(input, full);
            var trace := Run(calls, env, Completion(input, full, env.infoOk));
            && CompletesOnce(trace) && CallsSucceeded(trace, env)
            && (CallsSucceeded(calls, env) ==> trace == calls + [Done(Completion(input, full, env.infoOk))])
            && (!CallsSucceeded(calls, env) ==> StopsAtFault(trace, [], calls, env))
            && (Outcome(trace).Failed? ==> env.fails(Outcome(trace).at) && Checked(Outcome(trace).at))
            && Outcome(trace) != InvalidArgument
            && (Outcome(trace) == Unimplemented ==>
                  NumElements(input) > 0 && !GpuQr.QSupported(Rows(input), Cols(input), full))
            && (Outcome(trace) == Ok ==>
                  NumElements(input) == 0 || GpuQr.QSupported(Rows(input), Cols(input), full))
            && (Outcome(trace) == SolverFailure ==> !env.infoOk)
            && (NumElements(input) == 0 ==>
                  forall i :: 0 <= i < |trace| && trace[i].Call? ==> !DeviceWork(trace[i].step))
  {
    var calls := Enqueued(input, full);
    StagesAreCalls(input, full);
    RunSpec(calls, env, Completion(input, full, env.infoOk));
    var trace := Run(calls, env, Completion(input, full, env.infoOk));
    if NumElements(input) == 0 {
      assert calls == Prologue(input, full);
      forall i | 0 <= i < |trace| && trace[i].Call?
        ensures !DeviceWork(trace[i].step)
      {
        if CallsSucceeded(calls, env) {
          assert trace[i] == calls[i];
        } else {
          var k: nat :| k < |calls| && FirstFault(calls, k, env)
                        && trace == [] + calls[..k] + [Done(Failed(calls[k].step))];
          assert trace[i] == calls[i];
        }
      }
    }
  }

  /** The kernel's invocation, from the input shape and the full_matrices
      attribute. Each OP_REQUIRES_OK_ASYNC either records the call or, when it
      fails, invokes `done` with its status and returns. */
  method ComputeAsync(input: Shape, full: bool, env: Env) returns (trace: seq<Event>)
    ensures |input| < 2 ==> trace == [Done(InvalidArgument)]
    ensures |input| >= 2 ==> trace == Run(Enqueued(input, full), env, Completion(input, full, env.infoOk))
    ensures CompletesOnce(trace)
    ensures Outcome(trace) == InvalidArgument <==> |input| < 2
    ensures |input| >= 2 && CallsSucceeded(Enqueued(input, full), env) ==>
              trace == Enqueued(input, full) + [Done(Completion(input, full, env.infoOk))]
    ensures |input| >= 2 && !CallsSucceeded(Enqueued(input, full), env) ==>
              StopsAtFault(trace, [], Enqueued(input, full), env)
  {
    // The rank guard comes first here; the kernel reads both matrix extents
    // before checking the rank.
    if |input| < 2 {
      trace := [Done(InvalidArgument)];
      CompleteAfterCalls([], InvalidArgument);
      return;
    }
    trace := ComputeChecked(input, full, env);
    RunOutcome(input, full, env);
  }

  /** The invocation past the rank guard: the output allocations, the empty
      input's early completion, and the rest. */
  method ComputeChecked(input: Shape, full: bool, env: Env) returns (trace: seq<Event>)
    requires |input| >= 2
    ensures trace == Run(Enqueued(input, full), env, Completion(input, full, env.infoOk))
  {
    var prologue, rest := Prologue(input, full), AfterOutputs(input, full);
    CutConcat(prologue, rest, env);
    var completed;
    trace, completed := AllocateOutputs(input, full, env);
    if completed { return; }
    CutSpec(prologue, env);
    RunAfter(prologue, rest, env, Completion(input, full, env.infoOk));

    if NumElements(input) == 0 {
      assert rest == [] && Cut(rest, env) == [];
      return trace + [Done(Ok)];
    }
    trace := EnqueueAndComplete(input, full, env, trace);
  }

  /** allocate_output for Q and then for R, with the accelerator's shapes. */
  method AllocateOutputs(input: Shape, full: bool, env: Env) returns (trace: seq<Event>, completed: bool)
    requires |input| >= 2
    ensures trace == Cut(Prologue(input, full), env)
    ensures completed <==> !CallsSucceeded(Prologue(input, full), env)
  {
    var shapes := GpuOutputShapes(input, full);
    var allocQ, allocR := Call(AllocOutput(QOutput, shapes.q)), Call(AllocOutput(ROutput, shapes.r));
    CutConcat([allocQ], [allocR], env);
    assert [allocQ] + [allocR] == Prologue(input, full);
    trace, completed := Attempt([], allocQ.step, env);
    if completed { return; }
    trace, completed := Attempt(trace, allocR.step, env);
  }

  /** Everything after the output allocations for a non-empty input: the
      factorization stage, the Unimplemented exit, the Q stage and the host
      callback's completion. */
  method EnqueueAndComplete(input: Shape, full: bool, env: Env, t: seq<Event>) returns (trace: seq<Event>)
    requires |input| >= 2 && NumElements(input) > 0
    ensures trace == t + Run(AfterOutputs(input, full), env, Completion(input, full, env.infoOk))
  {
    var m, n := Rows(input), Cols(input);
    var factor := FactorStage(input, full);
    var tail := if GpuQr.QSupported(m, n, full) then QStage(input) else [];
    assert AfterOutputs(input, full) == factor + tail;
    Then(t, factor, tail, env);
    var completed;
    trace, completed := EnqueueFactorization(input, full, env, t);
    if completed { return; }
    assert trace == t + factor;

    if m != n && (full || m < n) {
      assert factor + tail == factor;
      CutSpec(factor, env);
      return trace + [Done(Unimplemented)];
    }

    assert tail == QStage(input);
    trace, completed := EnqueueQ(input, env, trace);
    if completed { return; }
    CutSpec(tail, env);
    // The host callback: it completes with the copied status, once.
    var st := if env.infoOk then Ok else SolverFailure;
    trace := trace + [Done(st)];
  }

  /** One call under OP_REQUIRES_OK_ASYNC: recorded when it succeeds, otherwise
      the invocation completes with its failure. */
  method Attempt(t: seq<Event>, s: Step, env: Env) returns (trace: seq<Event>, completed: bool)
    requires Checked(s)
    ensures completed <==> env.fails(s)
    ensures !completed ==> trace == t + [Call(s)]
    ensures completed ==> trace == t + [Done(Failed(s))]
    ensures trace == t + Cut([Call(s)], env)
    ensures completed <==> !CallsSucceeded([Call(s)], env)
  {
    assert [Call(s)][1..] == [];
    if env.fails(s) {
      trace, completed := t + [Done(Failed(s))], true;
    } else {
      trace, completed := t + [Call(s)], false;
    }
  }

  /** The stages after the outputs are allocated, for a non-empty input: the
      scratch allocations, the transpose into column-major layout, Geqrf on
      every matrix, the R extraction and the band part. */
  method EnqueueFactorization(input: Shape, full: bool, env: Env, t: seq<Event>)
    returns (trace: seq<Event>, completed: bool)
    requires |input| >= 2
    ensures trace == t + Cut(FactorStage(input, full), env)
    ensures completed <==> !CallsSucceeded(FactorStage(input, full), env)
  {
    var s := Scratch(input);
    var geqrf := PerBatch(BatchSize(input), (b: nat) => Geqrf(b));
    var rStage := RStage(input, full);
    assert FactorStage(input, full) == s + geqrf + rStage;
    Then(t, s, geqrf, env);
    Then(t, s + geqrf, rStage, env);
    trace, completed := EnqueueScratch(input, env, t);
    if completed { return; }
    assert trace == t + s;
    trace, completed := EnqueuePerBatch(trace, BatchSize(input), (b: nat) => Geqrf(b), env);
    if completed { return; }
    assert trace == t + s + geqrf;
    trace, completed := EnqueueR(input, full, env, trace);
  }

  /** allocate_temp for the transposed copy and for tau, then the transpose
      into column-major layout. */
  method EnqueueScratch(input: Shape, env: Env, t: seq<Event>) returns (trace: seq<Event>, completed: bool)
    requires |input| >= 2
    ensures trace == t + Cut(Scratch(input), env)
    ensures completed <==> !CallsSucceeded(Scratch(input), env)
  {
    var a1 := Call(AllocTemp(InputTransposed, TransposedShape(input)));
    var a2 := Call(AllocTemp(Tau, TauShape(input)));
    var a3 := Call(DoTranspose(Input, InputTransposed));
    assert Scratch(input) == [a1] + ([a2] + [a3]);
    CutConcat([a1], [a2] + [a3], env);
    CutConcat([a2], [a3], env);
    trace, completed := Attempt(t, a1.step, env);
    if completed { return; }
    trace, completed := Attempt(trace, a2.step, env);
    if completed { return; }
    trace, completed := Attempt(trace, a3.step, env);
  }

  /** R: one transpose back in full mode or for a square input, otherwise Geam
      on every matrix; then the band part, whose functor reports no status. */
  method EnqueueR(input: Shape, full: bool, env: Env, t: seq<Event>) returns (trace: seq<Event>, completed: bool)
    requires |input| >= 2
    ensures trace == t + Cut(RStage(input, full), env)
    ensures completed <==> !CallsSucceeded(RStage(input, full), env)
  {
    var band := [Call(BandPart)];
    var r := if full || Rows(input) == Cols(input) then [Call(DoTranspose(InputTransposed, ROutput))]
             else PerBatch(BatchSize(input), (b: nat) => Geam(b));
    assert r + band == RStage(input, full);
    CutConcat(r, band, env);
    assert band[1..] == [];
    if full || Rows(input) == Cols(input) {
      trace, completed := Attempt(t, DoTranspose(InputTransposed, ROutput), env);
    } else {
      trace, completed := EnqueuePerBatch(t, BatchSize(input), (b: nat) => Geam(b), env);
    }
    if completed { return; }
    trace := trace + band;
  }

  /** The Q stage of the supported case: Orgqr on every matrix, the transpose
      back to row-major, and the asynchronous copy of the info codes. */
  method EnqueueQ(input: Shape, env: Env, t: seq<Event>) returns (trace: seq<Event>, completed: bool)
    requires |input| >= 2
    ensures trace == t + Cut(QStage(input), env)
    ensures completed <==> !CallsSucceeded(QStage(input), env)
  {
    var orgqr := PerBatch(BatchSize(input), (b: nat) => Orgqr(b));
    var toQ, copy := Call(DoTranspose(InputTransposed, QOutput)), Call(CopyInfoAsync);
    assert QStage(input) == orgqr + ([toQ] + [copy]);
    CutConcat(orgqr, [toQ] + [copy], env);
    CutConcat([toQ], [copy], env);
    trace, completed := EnqueuePerBatch(t, BatchSize(input), (b: nat) => Orgqr(b), env);
    if completed { return; }
    trace, completed := Attempt(trace, toQ.step, env);
    if completed { return; }
    trace, completed := Attempt(trace, copy.step, env);
  }

  /** One loop of per-matrix solver calls, each under OP_REQUIRES_OK_ASYNC:
      either every call is appended, or the calls before the first failing one
      are appended followed by the completion with that call's failure. */
  method EnqueuePerBatch(t: seq<Event>, count: nat, step: nat -> Step, env: Env)
    returns (trace: seq<Event>, completed: bool)
    requires forall b :: Checked(step(b))
    ensures !completed <==> forall b :: 0 <= b < count ==> !env.fails(step(b))
    ensures !completed ==> trace == t + PerBatch(count, step)
    ensures completed ==>
              exists b :: 0 <= b < count && env.fails(step(b)) && (forall c :: 0 <= c < b ==> !env.fails(step(c)))
                          && trace == t + PerBatch(b, step) + [Done(Failed(step(b)))]
    ensures trace == t + Cut(PerBatch(count, step), env)
    ensures completed <==> !CallsSucceeded(PerBatch(count, step), env)
  {
    trace := t;
    for b := 0 to count
      invariant trace == t + PerBatch(b, step)
      invariant CallsSucceeded(PerBatch(b, step), env)
      invariant forall c :: 0 <= c < b ==> !env.fails(step(c))
    {
      if env.fails(step(b)) {
        CutOfBatch(count, step, b, env);
        trace, completed := trace + [Done(Failed(step(b)))], true;
        return;
      }
      assert PerBatch(b + 1, step) == PerBatch(b, step) + [Call(step(b))];
      CutConcat(PerBatch(b, step), [Call(step(b))], env);
      trace := trace + [Call(step(b))];
    }
    CutSpec(PerBatch(count, step), env);
    completed := false;
  }

  /** In a per-matrix loop whose calls before matrix b succeeded, a failing
      call for matrix b ends the loop's run right there. */
  lemma CutOfBatch(count: nat, step: nat -> Step, b: nat, env: Env)
    requires b < count && env.fails(step(b)) && Checked(step(b))
    requires CallsSucceeded(PerBatch(b, step), env)
    ensures Cut(PerBatch(count, step), env) == PerBatch(b, step) + [Done(Failed(step(b)))]
    ensures !CallsSucceeded(PerBatch(count, step), env)
  {
    var all := PerBatch(count, step);
    var rest := all[b..];
    assert all == PerBatch(b, step) + rest;
    assert rest[0] == Call(step(b));
    CutConcat(PerBatch(b, step), rest, env);
  }
}
