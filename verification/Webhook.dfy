/**
 The admission webhook: it replaces the resource requests of a pod by annotations that name their
 totals, and by one unit of the peer-pod VM resource.  Quantities are exact, in nano-units: a quantity
 of n stands for n / 1,000,000,000.
 */
module Webhook {
  import opened Results
  import opened Decimal

  const NANO: int := 1_000_000_000
  const MIB: int := 1_048_576

  const CPU: string := "cpu"
  const MEMORY: string := "memory"
  const GPU: string := "nvidia.com/gpu"
  const CPU_ANNOTATION: string := "io.katacontainers.config.hypervisor.default_vcpus"
  const MEMORY_ANNOTATION: string := "io.katacontainers.config.hypervisor.default_memory"
  const GPU_ANNOTATION: string := "io.katacontainers.config.hypervisor.default_gpus"
  const RUNTIME_CLASS_DEFAULT: string := "kata-remote"
  const VM_RESOURCE_DEFAULT: string := "kata.peerpods.io/vm"

  datatype Container = Container(name: string, requests: map<string, int>, limits: map<string, int>)

  datatype Pod = Pod(
    runtimeClass: Option<string>, annotations: map<string, string>,
    containers: seq<Container>, initContainers: seq<Container>)

  /** Environment variables (empty if unset), and how the library prints a quantity. */
  datatype Env = Env(runtimeClass: string, vmResource: string, quantityText: int -> string)

  function TargetRuntimeClass(env: Env): string {
    if env.runtimeClass == "" then RUNTIME_CLASS_DEFAULT else env.runtimeClass
  }

  function VMResource(env: Env): string {
    if env.vmResource == "" then VM_RESOURCE_DEFAULT else env.vmResource
  }

  // ----- quantities -----

  /** Rounded to a whole number, away from zero. */
  function Whole(q: int): (n: int)
    ensures q >= 0 ==> (n - 1) * NANO < q <= n * NANO && n >= 0
    ensures q > 0 ==> n > 0
    ensures q <= 0 ==> n * NANO <= q < (n + 1) * NANO
  {
    if q >= 0 then (q + NANO - 1) / NANO else -((-q + NANO - 1) / NANO)
  }

  /** Whole bytes rounded up to MiB; Go's division truncates toward zero. */
  function ToMiB(q: int): (n: int)
    ensures q >= 0 ==> (n - 1) * MIB * NANO < q <= n * MIB * NANO && n >= 0
    ensures q > 0 ==> n > 0
  {
    var bytes := Whole(q);
    if bytes >= 0 then (bytes + MIB - 1) / MIB else -(-bytes / MIB)
  }

  /** The library refuses quantities of the largest 64-bit integer and above, and the caller announces "0". */
  predicate Convertible(q: int) {
    q < MAX_INT64 * NANO
  }

  function MiBText(q: int): string {
    if Convertible(q) then FormatInt(ToMiB(q)) else "0"
  }

  function Amount(m: map<string, int>, name: string): int {
    if name in m then m[name] else 0
  }

  function SumRequests(cs: seq<Container>, name: string): int {
    if cs == [] then 0 else SumRequests(cs[..|cs| - 1], name) + Amount(cs[|cs| - 1].requests, name)
  }

  function SumLimits(cs: seq<Container>, name: string): int {
    if cs == [] then 0 else SumLimits(cs[..|cs| - 1], name) + Amount(cs[|cs| - 1].limits, name)
  }

  function TotalRequest(pod: Pod, name: string): int {
    SumRequests(pod.containers, name) + SumRequests(pod.initContainers, name)
  }

  function TotalLimit(pod: Pod, name: string): int {
    SumLimits(pod.containers, name) + SumLimits(pod.initContainers, name)
  }

  // ----- specification of the mutation -----

  /** The quantity that is announced: the limit if it is at least the request, else the request. */
  function Announced(request: int, limit: int): Option<int> {
    if request != 0 && limit >= request then Some(limit)
    else if request > 0 then Some(request)
    else None
  }

  function Annotate(env: Env, pod: Pod): map<string, string> {
    var cpu := Announced(TotalRequest(pod, CPU), TotalLimit(pod, CPU));
    var memory := Announced(TotalRequest(pod, MEMORY), TotalLimit(pod, MEMORY));
    var gpu := TotalRequest(pod, GPU);
    var a0 := pod.annotations;
    var a1 := if cpu.Some? then a0[CPU_ANNOTATION := FormatInt(Whole(cpu.value))] else a0;
    var a2 := if memory.Some? then a1[MEMORY_ANNOTATION := MiBText(memory.value)] else a1;
    if gpu > 0 then a2[GPU_ANNOTATION := env.quantityText(gpu)] else a2
  }

  function Cleared(cs: seq<Container>): (r: seq<Container>)
    ensures |r| == |cs|
    ensures forall i | 0 <= i < |cs| :: r[i] == cs[i].(requests := map[], limits := map[])
  {
    seq(|cs|, i requires 0 <= i < |cs| => cs[i].(requests := map[], limits := map[]))
  }

  function OneVM(env: Env): map<string, int> {
    map[VMResource(env) := NANO]
  }

  function Adjusted(env: Env, pod: Pod): Pod
    requires pod.containers != []
  {
    var cs := Cleared(pod.containers);
    Pod(pod.runtimeClass, Annotate(env, pod),
        cs[0 := cs[0].(requests := OneVM(env), limits := OneVM(env))], Cleared(pod.initContainers))
  }

  function Mutated(env: Env, pod: Pod): Pod
    requires pod.containers != []
  {
    if pod.runtimeClass != Some(TargetRuntimeClass(env)) then pod else Adjusted(env, pod)
  }

  // ----- the mutation, in place -----

  class PodObject {
    const runtimeClass: Option<string>
    var annotations: map<string, string>
    var containers: seq<Container>
    var initContainers: seq<Container>

    function Value(): Pod
      reads this
    {
      Pod(runtimeClass, annotations, containers, initContainers)
    }

    constructor DeepCopy(pod: Pod)
      ensures Value() == pod
    {
      runtimeClass, annotations := pod.runtimeClass, pod.annotations;
      containers, initContainers := pod.containers, pod.initContainers;
    }

    method RequestQuantity(name: string) returns (q: int)
      ensures q == TotalRequest(Value(), name)
    {
      q := 0;
      var cs := containers;
      for i := 0 to |cs|
        invariant q == SumRequests(cs[..i], name)
      {
        assert cs[..i + 1][..i] == cs[..i];
        if name in cs[i].requests {
          q := q + cs[i].requests[name];
        }
      }
      assert cs[..|cs|] == cs;
      cs := initContainers;
      for i := 0 to |cs|
        invariant q == SumRequests(containers, name) + SumRequests(cs[..i], name)
      {
        assert cs[..i + 1][..i] == cs[..i];
        if name in cs[i].requests {
          q := q + cs[i].requests[name];
        }
      }
      assert cs[..|cs|] == cs;
    }

    method LimitQuantity(name: string) returns (q: int)
      ensures q == TotalLimit(Value(), name)
    {
      q := 0;
      var cs := containers;
      for i := 0 to |cs|
        invariant q == SumLimits(cs[..i], name)
      {
        assert cs[..i + 1][..i] == cs[..i];
        if name in cs[i].limits {
          q := q + cs[i].limits[name];
        }
      }
      assert cs[..|cs|] == cs;
      cs := initContainers;
      for i := 0 to |cs|
        invariant q == SumLimits(containers, name) + SumLimits(cs[..i], name)
      {
        assert cs[..i + 1][..i] == cs[..i];
        if name in cs[i].limits {
          q := q + cs[i].limits[name];
        }
      }
      assert cs[..|cs|] == cs;
    }

    method WriteAnnotations(env: Env)
      modifies this`annotations
      ensures annotations == Annotate(env, old(Value()))
    {
      var cpuRequest := RequestQuantity(CPU);
      var cpuLimit := LimitQuantity(CPU);
      var memoryRequest := RequestQuantity(MEMORY);
      var memoryLimit := LimitQuantity(MEMORY);
      var gpuRequest := RequestQuantity(GPU);
      if cpuRequest != 0 && cpuLimit >= cpuRequest {
        annotations := annotations[CPU_ANNOTATION := FormatInt(Whole(cpuLimit))];
      } else if cpuRequest > 0 {
        annotations := annotations[CPU_ANNOTATION := FormatInt(Whole(cpuRequest))];
      }
      if memoryRequest != 0 && memoryLimit >= memoryRequest {
        annotations := annotations[MEMORY_ANNOTATION := MiBText(memoryLimit)];
      } else if memoryRequest > 0 {
        annotations := annotations[MEMORY_ANNOTATION := MiBText(memoryRequest)];
      }
      if gpuRequest > 0 {
        annotations := annotations[GPU_ANNOTATION := env.quantityText(gpuRequest)];
      }
    }

    method ClearContainers()
      modifies this`containers
      ensures containers == Cleared(old(containers))
    {
      for i := 0 to |containers|
        invariant |containers| == old(|containers|)
        invariant forall k | 0 <= k < |containers| ::
                    containers[k] == if k < i then Cleared(old(containers))[k] else old(containers)[k]
      {
        containers := containers[i := containers[i].(requests := map[], limits := map[])];
      }
    }

    method ClearInitContainers()
      modifies this`initContainers
      ensures initContainers == Cleared(old(initContainers))
    {
      for i := 0 to |initContainers|
        invariant |initContainers| == old(|initContainers|)
        invariant forall k | 0 <= k < |initContainers| ::
                    initContainers[k] == if k < i then Cleared(old(initContainers))[k] else old(initContainers)[k]
      {
        initContainers := initContainers[i := initContainers[i].(requests := map[], limits := map[])];
      }
    }

    method AdjustResourceSpec(env: Env)
      requires containers != []
      modifies this
      ensures Value() == Adjusted(env, old(Value()))
    {
      WriteAnnotations(env);
      ClearContainers();
      ClearInitContainers();
      containers := containers[0 := containers[0].(requests := OneVM(env), limits := OneVM(env))];
    }
  }

  method MutatePod(env: Env, pod: Pod) returns (r: Pod)
    requires pod.containers != []
    ensures r == Mutated(env, pod)
  {
    var mpod := new PodObject.DeepCopy(pod);
    if mpod.runtimeClass != Some(TargetRuntimeClass(env)) {
      return mpod.Value();
    }
    mpod.AdjustResourceSpec(env);
    return mpod.Value();
  }

  // ----- totals -----

  function RaiseRequest(c: Container, name: string, d: int): Container {
    c.(requests := c.requests[name := Amount(c.requests, name) + d])
  }

  function RaiseLimit(c: Container, name: string, d: int): Container {
    c.(limits := c.limits[name := Amount(c.limits, name) + d])
  }

  lemma {:induction false} SumsFollowOneContainer(cs: seq<Container>, i: nat, c: Container, name: string)
    requires i < |cs|
    ensures SumRequests(cs[i := c], name) == SumRequests(cs, name) - Amount(cs[i].requests, name) + Amount(c.requests, name)
    ensures SumLimits(cs[i := c], name) == SumLimits(cs, name) - Amount(cs[i].limits, name) + Amount(c.limits, name)
  {
    var n := |cs| - 1;
    if i == n {
      assert cs[i := c][..n] == cs[..n];
    } else {
      SumsFollowOneContainer(cs[..n], i, c, name);
      assert cs[i := c][..n] == cs[..n][i := c];
    }
  }

  /** A request counts once, whichever container or init container makes it, and for its own resource only. */
  lemma TotalsCountEveryContainer(pod: Pod, i: nat, name: string, d: int, other: string)
    ensures i < |pod.containers| ==>
              var c := pod.containers[i];
              var more, wider := pod.(containers := pod.containers[i := RaiseRequest(c, name, d)]),
                                 pod.(containers := pod.containers[i := RaiseLimit(c, name, d)]);
              && TotalRequest(more, other) == TotalRequest(pod, other) + (if other == name then d else 0)
              && TotalLimit(more, other) == TotalLimit(pod, other)
              && TotalLimit(wider, other) == TotalLimit(pod, other) + (if other == name then d else 0)
              && TotalRequest(wider, other) == TotalRequest(pod, other)
    ensures i < |pod.initContainers| ==>
              var c := pod.initContainers[i];
              var more, wider := pod.(initContainers := pod.initContainers[i := RaiseRequest(c, name, d)]),
                                 pod.(initContainers := pod.initContainers[i := RaiseLimit(c, name, d)]);
              && TotalRequest(more, other) == TotalRequest(pod, other) + (if other == name then d else 0)
              && TotalLimit(more, other) == TotalLimit(pod, other)
              && TotalLimit(wider, other) == TotalLimit(pod, other) + (if other == name then d else 0)
              && TotalRequest(wider, other) == TotalRequest(pod, other)
  {
    if i < |pod.containers| {
      SumsFollowOneContainer(pod.containers, i, RaiseRequest(pod.containers[i], name, d), other);
      SumsFollowOneContainer(pod.containers, i, RaiseLimit(pod.containers[i], name, d), other);
    }
    if i < |pod.initContainers| {
      SumsFollowOneContainer(pod.initContainers, i, RaiseRequest(pod.initContainers[i], name, d), other);
      SumsFollowOneContainer(pod.initContainers, i, RaiseLimit(pod.initContainers[i], name, d), other);
    }
  }

  /** A pod that asks for nothing has totals of zero. */
  lemma NothingTotalsToZero(pod: Pod, name: string)
    requires forall c | c in pod.containers + pod.initContainers :: name !in c.requests && name !in c.limits
    ensures TotalRequest(pod, name) == 0 && TotalLimit(pod, name) == 0
  {
    forall c | c in pod.containers ensures c in pod.containers + pod.initContainers {}
    forall c | c in pod.initContainers ensures c in pod.containers + pod.initContainers {}
    NothingSumsToZero(pod.containers, name);
    NothingSumsToZero(pod.initContainers, name);
  }

  lemma {:induction false} NothingSumsToZero(cs: seq<Container>, name: string)
    requires forall c | c in cs :: name !in c.requests && name !in c.limits
    ensures SumRequests(cs, name) == 0 && SumLimits(cs, name) == 0
  {
    if cs != [] {
      NothingSumsToZero(cs[..|cs| - 1], name);
    }
  }

  // ----- one VM, and the second mutation -----

  lemma {:induction false} ClearedSumsToZero(cs: seq<Container>, name: string)
    ensures SumRequests(Cleared(cs), name) == 0 && SumLimits(Cleared(cs), name) == 0
  {
    if cs != [] {
      ClearedSumsToZero(cs[..|cs| - 1], name);
      var r := Cleared(cs);
      assert r[..|cs| - 1] == Cleared(cs[..|cs| - 1]);
    }
  }

  lemma {:induction false} FirstOnlySums(cs: seq<Container>, first: Container, name: string)
    requires cs != []
    ensures var r := Cleared(cs)[0 := first];
            SumRequests(r, name) == Amount(first.requests, name) && SumLimits(r, name) == Amount(first.limits, name)
  {
    var r := Cleared(cs)[0 := first];
    if |cs| == 1 {
      assert r[..0] == [];
    } else {
      FirstOnlySums(cs[..|cs| - 1], first, name);
      assert r[..|cs| - 1] == Cleared(cs[..|cs| - 1])[0 := first];
    }
  }

  /** After the mutation the pod asks for exactly one unit of the VM resource, and for nothing else. */
  lemma AdjustedAsksForOneVM(env: Env, pod: Pod, name: string)
    requires pod.containers != []
    ensures TotalRequest(Adjusted(env, pod), name) ==
            if name == (if env.vmResource == "" then "kata.peerpods.io/vm" else env.vmResource) then NANO else 0
    ensures TotalLimit(Adjusted(env, pod), name) == TotalRequest(Adjusted(env, pod), name)
  {
    FirstOnlySums(pod.containers, Cleared(pod.containers)[0].(requests := OneVM(env), limits := OneVM(env)), name);
    ClearedSumsToZero(pod.initContainers, name);
  }

  /**
   A pod of another runtime class is left alone.  Otherwise the mutation touches the three annotations and
   the resources only: names, runtime class and all other annotations stay, and so does an annotation
   whose resource is not announced.
   */
  lemma MutationKeepsTheRest(env: Env, pod: Pod, key: string)
    requires pod.containers != []
    ensures pod.runtimeClass != Some(if env.runtimeClass == "" then "kata-remote" else env.runtimeClass) ==> Mutated(env, pod) == pod
    ensures var r := Mutated(env, pod);
            && r.runtimeClass == pod.runtimeClass
            && |r.containers| == |pod.containers| && |r.initContainers| == |pod.initContainers|
            && (forall i | 0 <= i < |pod.containers| :: r.containers[i].name == pod.containers[i].name)
            && (forall i | 0 <= i < |pod.initContainers| :: r.initContainers[i].name == pod.initContainers[i].name)
    ensures key !in {CPU_ANNOTATION, MEMORY_ANNOTATION, GPU_ANNOTATION}
            || (key == CPU_ANNOTATION && TotalRequest(pod, CPU) == 0)
            || (key == MEMORY_ANNOTATION && TotalRequest(pod, MEMORY) == 0)
            || (key == GPU_ANNOTATION && TotalRequest(pod, GPU) == 0) ==>
              var r := Mutated(env, pod).annotations;
              (key in r <==> key in pod.annotations) && (key in r ==> r[key] == pod.annotations[key])
  {
    AnnotationKeysDiffer();
  }

  /** The annotation that a second mutation would write if the VM resource were one of the three totals. */
  function Clash(env: Env): Option<(string, string)> {
    if VMResource(env) == CPU then Some((CPU_ANNOTATION, "1"))
    else if VMResource(env) == MEMORY then Some((MEMORY_ANNOTATION, "1"))
    else if VMResource(env) == GPU then Some((GPU_ANNOTATION, env.quantityText(NANO)))
    else None
  }

  predicate Annotated(annotations: map<string, string>, entry: (string, string)) {
    entry.0 in annotations && annotations[entry.0] == entry.1
  }

  lemma SecondAnnotation(env: Env, pod: Pod)
    requires pod.containers != []
    ensures var once := Adjusted(env, pod);
            Annotate(env, once) == if Clash(env).None? then once.annotations else once.annotations[Clash(env).value.0 := Clash(env).value.1]
  {
    AdjustedAsksForOneVM(env, pod, CPU);
    AdjustedAsksForOneVM(env, pod, MEMORY);
    AdjustedAsksForOneVM(env, pod, GPU);
    assert Whole(NANO) == 1 && ToMiB(NANO) == 1;
    assert FormatInt(1) == "1";
  }

  lemma TwiceIsOnceIfAnnotated(env: Env, pod: Pod)
    requires pod.containers != [] && pod.runtimeClass == Some(TargetRuntimeClass(env))
    ensures var once := Mutated(env, pod);
            Mutated(env, once) == once <==> (Clash(env).Some? ==> Annotated(once.annotations, Clash(env).value))
  {
    var once := Adjusted(env, pod);
    var twice := Adjusted(env, once);
    SecondAnnotation(env, pod);
    assert Cleared(once.containers) == Cleared(pod.containers);
    assert Cleared(once.initContainers) == once.initContainers;
    assert twice.containers == once.containers;
  }

  /** The pod announces a total of the VM resource that rounds to one, or announces none and is annotated so already. */
  predicate AnnouncesOne(env: Env, pod: Pod) {
    var cpu := Announced(TotalRequest(pod, CPU), TotalLimit(pod, CPU));
    var memory := Announced(TotalRequest(pod, MEMORY), TotalLimit(pod, MEMORY));
    var gpu := TotalRequest(pod, GPU);
    if VMResource(env) == CPU then
      if cpu.Some? then Whole(cpu.value) == 1 else Annotated(pod.annotations, (CPU_ANNOTATION, "1"))
    else if VMResource(env) == MEMORY then
      if memory.Some? then Convertible(memory.value) && ToMiB(memory.value) == 1 else Annotated(pod.annotations, (MEMORY_ANNOTATION, "1"))
    else if gpu > 0 then env.quantityText(gpu) == env.quantityText(NANO)
    else Annotated(pod.annotations, (GPU_ANNOTATION, env.quantityText(NANO)))
  }

  lemma AnnotationKeysDiffer()
    ensures CPU_ANNOTATION != MEMORY_ANNOTATION && CPU_ANNOTATION != GPU_ANNOTATION && MEMORY_ANNOTATION != GPU_ANNOTATION
  {
    assert |CPU_ANNOTATION| == 49 && |MEMORY_ANNOTATION| == 50 && |GPU_ANNOTATION| == 48;
  }

  lemma PrintsOne(n: int)
    ensures FormatInt(n) == "1" <==> n == 1
  {
    assert FormatInt(1) == "1";
    if FormatInt(n) == "1" {
      FormatIntInjective(n, 1);
    }
  }

  lemma {:induction false} FirstAnnotationIsOne(env: Env, pod: Pod)
    requires pod.containers != [] && Clash(env).Some?
    ensures Annotated(Annotate(env, pod), Clash(env).value) <==> AnnouncesOne(env, pod)
  {
    AnnotationKeysDiffer();
    if VMResource(env) == CPU {
      var cpu := Announced(TotalRequest(pod, CPU), TotalLimit(pod, CPU));
      if cpu.Some? {
        PrintsOne(Whole(cpu.value));
      }
    } else if VMResource(env) == MEMORY {
      var memory := Announced(TotalRequest(pod, MEMORY), TotalLimit(pod, MEMORY));
      if memory.Some? {
        PrintsOne(ToMiB(memory.value));
      }
    }
  }

  /**
   Mutating a pod twice is mutating it once exactly when the VM resource is not CPU, memory or GPU, or the
   pod announces one unit of it already.
   */
  lemma MutationIsIdempotentExactly(env: Env, pod: Pod)
    requires pod.containers != [] && pod.runtimeClass == Some(TargetRuntimeClass(env))
    ensures Mutated(env, Mutated(env, pod)) == Mutated(env, pod) <==> (VMResource(env) in {CPU, MEMORY, GPU} ==> AnnouncesOne(env, pod))
  {
    TwiceIsOnceIfAnnotated(env, pod);
    if Clash(env).Some? {
      FirstAnnotationIsOne(env, pod);
    }
  }
}
