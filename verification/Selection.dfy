/** From the resource requests of a pod to the instance type of its VM: webhook, annotations, search. */
module Selection {
  import opened Results
  import opened Decimal
  import opened Webhook
  import I = InstanceTypes

  const MACHINE_TYPE_ANNOTATION: string := "io.katacontainers.config.hypervisor.machine_type"

  function AnnotatedNumber(annotations: map<string, string>, key: string): int {
    if key !in annotations then 0
    else match ParseInt(annotations[key])
      case None => 0
      case Some(n) => n
  }

  /** What the adaptor asks the cloud provider for. */
  function Wanted(annotations: map<string, string>): I.Spec {
    I.Spec(if MACHINE_TYPE_ANNOTATION in annotations then annotations[MACHINE_TYPE_ANNOTATION] else "",
           AnnotatedNumber(annotations, CPU_ANNOTATION),
           AnnotatedNumber(annotations, MEMORY_ANNOTATION),
           AnnotatedNumber(annotations, GPU_ANNOTATION))
  }

  function AnnouncedCPU(pod: Pod): Option<int> {
    Announced(TotalRequest(pod, CPU), TotalLimit(pod, CPU))
  }

  function AnnouncedMemory(pod: Pod): Option<int> {
    Announced(TotalRequest(pod, MEMORY), TotalLimit(pod, MEMORY))
  }

  /** The totals that are announced, CPUs and bytes, fit the 64-bit integers in which they travel. */
  predicate Fits(pod: Pod) {
    && (AnnouncedCPU(pod).Some? ==> Whole(AnnouncedCPU(pod).value) <= MAX_INT64)
    && (AnnouncedMemory(pod).Some? ==> Convertible(AnnouncedMemory(pod).value))
  }

  /** Whole MiB are no more than whole bytes. */
  lemma MiBFits(q: int)
    requires 0 < q && Convertible(q)
    ensures 0 < ToMiB(q) <= MAX_INT64
  {
    assert Whole(q) <= MAX_INT64;
  }

  lemma AnnouncedCovers(request: int, limit: int)
    requires request > 0
    ensures Announced(request, limit).Some? && Announced(request, limit).value >= request
    ensures Announced(request, limit).value == request || Announced(request, limit).value == limit
  {
  }

  function Larger(a: int, b: int): int {
    if a >= b then a else b
  }

  /**
   The annotations of the mutated pod read back as the least whole CPUs and MiB that cover its totals, of
   requests and of limits.
   */
  lemma AnnotationsCoverTotals(env: Env, pod: Pod)
    requires pod.containers != [] && pod.runtimeClass == Some(TargetRuntimeClass(env)) && Fits(pod)
    requires TotalRequest(pod, CPU) > 0 && TotalRequest(pod, MEMORY) > 0
    ensures var want := Wanted(Mutated(env, pod).annotations);
            && want.vcpus > 0 && want.vcpus * NANO >= TotalRequest(pod, CPU)
            && want.memory > 0 && want.memory * MIB * NANO >= TotalRequest(pod, MEMORY)
            && (want.vcpus - 1) * NANO < Larger(TotalRequest(pod, CPU), TotalLimit(pod, CPU)) <= want.vcpus * NANO
            && (want.memory - 1) * MIB * NANO < Larger(TotalRequest(pod, MEMORY), TotalLimit(pod, MEMORY)) <= want.memory * MIB * NANO
  {
    AnnouncedCovers(TotalRequest(pod, CPU), TotalLimit(pod, CPU));
    AnnouncedCovers(TotalRequest(pod, MEMORY), TotalLimit(pod, MEMORY));
    var cpu := Whole(AnnouncedCPU(pod).value);
    var memory := ToMiB(AnnouncedMemory(pod).value);
    MiBFits(AnnouncedMemory(pod).value);
    ParseFormatInt(cpu);
    ParseFormatInt(memory);
    AnnotationKeysDiffer();
    var annotations := Mutated(env, pod).annotations;
    assert annotations[CPU_ANNOTATION] == FormatInt(cpu);
    assert annotations[MEMORY_ANNOTATION] == FormatInt(memory);
  }

  /** If the library prints a whole number of GPUs as such, the adaptor asks for that number; without a GPU request, for none. */
  lemma GPUsAreAskedFor(env: Env, pod: Pod, n: int)
    requires pod.containers != [] && pod.runtimeClass == Some(TargetRuntimeClass(env)) && 0 <= n <= MAX_INT64
    requires TotalRequest(pod, GPU) == n * NANO && env.quantityText(n * NANO) == FormatInt(n) && GPU_ANNOTATION !in pod.annotations
    ensures Wanted(Mutated(env, pod).annotations).gpus == n
  {
    AnnotationKeysDiffer();
    ParseFormatInt(n);
  }

  lemma MachineTypeKeyDiffers()
    ensures MACHINE_TYPE_ANNOTATION !in {CPU_ANNOTATION, MEMORY_ANNOTATION, GPU_ANNOTATION}
  {
    assert |CPU_ANNOTATION| == 49 && |MEMORY_ANNOTATION| == 50 && |GPU_ANNOTATION| == 48 && |MACHINE_TYPE_ANNOTATION| == 48;
    assert GPU_ANNOTATION[37] != MACHINE_TYPE_ANNOTATION[37];
  }

  /** The type offers the CPU and memory totals over all containers and init containers of the pod. */
  predicate OffersTotals(t: I.Spec, pod: Pod) {
    t.vcpus * NANO >= TotalRequest(pod, CPU) && t.memory * MIB * NANO >= TotalRequest(pod, MEMORY)
  }

  lemma CoveringOffersTotals(want: I.Spec, t: I.Spec, pod: Pod)
    requires I.Covers(want, t)
    requires want.vcpus * NANO >= TotalRequest(pod, CPU) && want.memory * MIB * NANO >= TotalRequest(pod, MEMORY)
    ensures OffersTotals(t, pod)
  {
    assert t.memory * MIB >= want.memory * MIB;
  }

  /**
   A pod that requests CPU and memory and names no machine type gets an error, or an instance type whose
   vCPUs and MiB cover the totals: through summation, rounding, printing, parsing, GPU filtering and
   search, for every list of types, sorted or not, with or without a GPU request.
   */
  lemma SelectedTypeCoversPod(env: Env, pod: Pod, list: seq<I.Spec>, supported: seq<string>, fallback: string)
    requires pod.containers != [] && pod.runtimeClass == Some(TargetRuntimeClass(env)) && Fits(pod)
    requires TotalRequest(pod, CPU) > 0 && TotalRequest(pod, MEMORY) > 0
    requires MACHINE_TYPE_ANNOTATION !in pod.annotations && forall t | t in list :: t.name != ""
    ensures var r := I.Select(Wanted(Mutated(env, pod).annotations), list, supported, fallback);
            r.Ok? ==> exists t | t in list :: t.name == r.value && OffersTotals(t, pod)
  {
    MachineTypeKeyDiffers();
    AnnotationsCoverTotals(env, pod);
    var want := Wanted(Mutated(env, pod).annotations);
    I.SelectionCovers(want, list, supported, fallback);
    var r := I.Select(want, list, supported, fallback);
    if r.Ok? {
      var w := want.(gpus := if want.gpus > 0 then want.gpus else 0);
      var t :| t in list && t.name == r.value && t.gpus >= w.gpus && t.vcpus >= w.vcpus && t.memory >= w.memory;
      CoveringOffersTotals(w, t, pod);
    }
  }

  /** With distinct names, the type that the name stands for is the one that covers. */
  lemma SelectedNameCoversPod(env: Env, pod: Pod, list: seq<I.Spec>, supported: seq<string>, fallback: string, t: I.Spec)
    requires pod.containers != [] && pod.runtimeClass == Some(TargetRuntimeClass(env)) && Fits(pod)
    requires TotalRequest(pod, CPU) > 0 && TotalRequest(pod, MEMORY) > 0
    requires MACHINE_TYPE_ANNOTATION !in pod.annotations && forall x | x in list :: x.name != ""
    requires forall x, y | x in list && y in list && x.name == y.name :: x == y
    requires t in list && I.Select(Wanted(Mutated(env, pod).annotations), list, supported, fallback) == Ok(t.name)
    ensures OffersTotals(t, pod)
  {
    SelectedTypeCoversPod(env, pod, list, supported, fallback);
  }

  /**
   A memory total that cannot be converted is announced as zero.  Then a pod without GPUs gets the default
   type, whatever it requests, and a pod with GPUs a type chosen as if it requested no memory.
   */
  lemma OversizedMemoryIsIgnored(env: Env, pod: Pod, list: seq<I.Spec>, supported: seq<string>, fallback: string)
    requires pod.containers != [] && pod.runtimeClass == Some(TargetRuntimeClass(env))
    requires AnnouncedMemory(pod).Some? && !Convertible(AnnouncedMemory(pod).value) && MACHINE_TYPE_ANNOTATION !in pod.annotations
    ensures var want := Wanted(Mutated(env, pod).annotations);
            && want.name == "" && want.memory == 0
            && (want.gpus <= 0 ==> I.Select(want, list, supported, fallback) == Ok(fallback))
            && (want.gpus > 0 ==> I.Select(want, [I.Spec("type", want.vcpus, 0, want.gpus)], [], "type") == Ok("type"))
  {
    AnnotationKeysDiffer();
    MachineTypeKeyDiffers();
    var annotations := Mutated(env, pod).annotations;
    assert annotations[MEMORY_ANNOTATION] == "0";
    assert FormatInt(0) == "0";
    ParseFormatInt(0);
    var want := Wanted(annotations);
    var small := [I.Spec("type", want.vcpus, 0, want.gpus)];
    assert I.SearchFrom(small, want, 0, 0) == 0;
  }

  /** A machine type that the pod names is what it gets, whatever it requests, exactly if that type is supported. */
  lemma NamedMachineTypeIsUsedExactly(env: Env, pod: Pod, list: seq<I.Spec>, supported: seq<string>, fallback: string)
    requires pod.containers != [] && MACHINE_TYPE_ANNOTATION in pod.annotations && pod.annotations[MACHINE_TYPE_ANNOTATION] != ""
    ensures var name := pod.annotations[MACHINE_TYPE_ANNOTATION];
            I.Select(Wanted(Mutated(env, pod).annotations), list, supported, fallback) ==
            if name in (if supported == [] then [fallback] else supported) then Ok(name) else Err(I.NotSupported(name))
  {
    MachineTypeKeyDiffers();
    MutationKeepsTheRest(env, pod, MACHINE_TYPE_ANNOTATION);
    I.NamedTypeIsReturnedExactly(Wanted(Mutated(env, pod).annotations), list, supported, fallback);
  }
}
