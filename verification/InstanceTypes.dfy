/** Choosing the smallest listed cloud instance type that covers a resource request. */
module InstanceTypes {
  import opened Results

  datatype Spec = Spec(name: string, vcpus: int, memory: int, gpus: int)

  /** `b` offers at least what `a` asks for, in every resource. */
  predicate Covers(a: Spec, b: Spec) {
    b.gpus >= a.gpus && b.vcpus >= a.vcpus && b.memory >= a.memory
  }

  // ----- the binary search of Go's sort package, over "entry covers the request" -----

  /** The index that the search returns when it starts with the interval from `lo` to `hi`. */
  function SearchFrom(list: seq<Spec>, want: Spec, lo: nat, hi: nat): (i: nat)
    requires lo <= hi <= |list|
    ensures lo <= i <= hi
    decreases hi - lo
  {
    if lo == hi then lo
    else
      var h := (lo + hi) / 2;
      if Covers(want, list[h]) then SearchFrom(list, want, lo, h) else SearchFrom(list, want, h + 1, hi)
  }

  method Search(list: seq<Spec>, want: Spec) returns (i: nat)
    ensures i == SearchFrom(list, want, 0, |list|)
    ensures i < |list| ==> Covers(want, list[i])
    ensures 0 < i <= |list| ==> !Covers(want, list[i - 1])
  {
    i := 0;
    var j := |list|;
    while i < j
      invariant 0 <= i <= j <= |list|
      invariant i > 0 ==> !Covers(want, list[i - 1])
      invariant j < |list| ==> Covers(want, list[j])
      invariant SearchFrom(list, want, i, j) == SearchFrom(list, want, 0, |list|)
    {
      var h := (i + j) / 2;
      if !Covers(want, list[h]) {
        i := h + 1;
      } else {
        j := h;
      }
    }
  }

  /** The index of the first entry that covers the request, or the length: a linear scan. */
  function FirstFit(list: seq<Spec>, want: Spec): (i: nat)
    ensures i <= |list|
    ensures i < |list| ==> Covers(want, list[i])
    ensures forall k | 0 <= k < i :: !Covers(want, list[k])
  {
    if list == [] || Covers(want, list[0]) then 0 else 1 + FirstFit(list[1..], want)
  }

  predicate Bounded(list: seq<Spec>, want: Spec, lo: nat, hi: nat) {
    && lo <= |list| && (lo > 0 ==> !Covers(want, list[lo - 1]))
    && (hi < |list| ==> Covers(want, list[hi]))
  }

  lemma {:induction false} SearchFromIsSound(list: seq<Spec>, want: Spec, lo: nat, hi: nat)
    requires lo <= hi <= |list| && Bounded(list, want, lo, hi)
    ensures var i := SearchFrom(list, want, lo, hi); Bounded(list, want, i, i)
    decreases hi - lo
  {
    if lo < hi {
      var h := (lo + hi) / 2;
      if Covers(want, list[h]) {
        SearchFromIsSound(list, want, lo, h);
      } else {
        SearchFromIsSound(list, want, h + 1, hi);
      }
    }
  }

  // ----- when the search is a best fit -----

  /**
   Every entry to the left of a probe, within the interval that the probe splits, is covered by the probe
   or by an earlier probe that failed.  `failed` are the probes after which the search went right.
   */
  ghost predicate ProbesDominate(list: seq<Spec>, lo: nat, hi: nat, failed: set<nat>)
    requires lo <= hi <= |list|
    decreases hi - lo
  {
    lo == hi ||
    var h := (lo + hi) / 2;
    && LeftDominated(list, lo, h, failed)
    && ProbesDominate(list, lo, h, failed)
    && ProbesDominate(list, h + 1, hi, failed + {h})
  }

  ghost predicate LeftDominated(list: seq<Spec>, lo: nat, h: nat, failed: set<nat>) {
    h < |list| && forall i {:trigger Dominated(list, i, failed)} {:trigger Covers(list[i], list[h])}
                    | lo <= i < h :: Covers(list[i], list[h]) || Dominated(list, i, failed)
  }

  ghost predicate Dominated(list: seq<Spec>, i: nat, probes: set<nat>) {
    i < |list| && exists p | p in probes && p < |list| :: Covers(list[i], list[p])
  }

  ghost predicate NoneCovers(list: seq<Spec>, want: Spec, probes: set<nat>) {
    forall p | p in probes && p < |list| :: !Covers(want, list[p])
  }

  lemma {:induction false} DominatedProbesFindFirstFit(list: seq<Spec>, want: Spec, lo: nat, hi: nat, failed: set<nat>)
    requires lo <= hi <= |list| && ProbesDominate(list, lo, hi, failed) && NoneCovers(list, want, failed)
    requires forall k | 0 <= k < lo :: !Covers(want, list[k])
    requires hi < |list| ==> Covers(want, list[hi])
    ensures SearchFrom(list, want, lo, hi) == FirstFit(list, want)
    decreases hi - lo
  {
    if lo < hi {
      var h := (lo + hi) / 2;
      if Covers(want, list[h]) {
        DominatedProbesFindFirstFit(list, want, lo, h, failed);
      } else {
        forall k | lo <= k < h ensures !Covers(want, list[k]) {
          if !Covers(list[k], list[h]) {
            var p :| p in failed && p < |list| && Covers(list[k], list[p]);
          }
        }
        DominatedProbesFindFirstFit(list, want, h + 1, hi, failed + {h});
      }
    }
  }

  /** The search answers every request like a linear first-fit scan. */
  ghost predicate BestFit(list: seq<Spec>) {
    forall want :: SearchFrom(list, want, 0, |list|) == FirstFit(list, want)
  }

  /** The request passes every probe on the way to the interval from `lo` to `hi`. */
  ghost predicate Reaches(list: seq<Spec>, want: Spec, lo: nat, hi: nat) {
    lo <= hi <= |list| && SearchFrom(list, want, 0, |list|) == SearchFrom(list, want, lo, hi)
  }

  /** A search that is right goes left at every probe behind an entry that asks for itself. */
  lemma EntryPassesLeft(list: seq<Spec>, i: nat, lo: nat, hi: nat)
    requires BestFit(list) && lo <= i < (lo + hi) / 2 && lo < hi <= |list| && Reaches(list, list[i], lo, hi)
    ensures Covers(list[i], list[(lo + hi) / 2]) && Reaches(list, list[i], lo, (lo + hi) / 2)
  {
    EntryIsFoundByItself(list, i);
  }

  lemma EntryPassesRight(list: seq<Spec>, i: nat, lo: nat, hi: nat)
    requires (lo + hi) / 2 < i && lo < hi <= |list| && i < |list| && Reaches(list, list[i], lo, hi) && !Covers(list[i], list[(lo + hi) / 2])
    ensures Reaches(list, list[i], (lo + hi) / 2 + 1, hi)
  {
  }

  /** Every entry of the interval that no failed probe dominates is searched for in this interval. */
  ghost predicate ReachableBelow(list: seq<Spec>, lo: nat, hi: nat, failed: set<nat>) {
    forall i {:trigger Dominated(list, i, failed)} {:trigger Reaches(list, list[i], lo, hi)}
      | lo <= i < hi <= |list| && !Dominated(list, i, failed) :: Reaches(list, list[i], lo, hi)
  }

  lemma LeftHalf(list: seq<Spec>, lo: nat, hi: nat, failed: set<nat>)
    requires lo < hi <= |list| && BestFit(list) && ReachableBelow(list, lo, hi, failed)
    ensures var h := (lo + hi) / 2;
            && ReachableBelow(list, lo, h, failed)
            && LeftDominated(list, lo, h, failed)
  {
    var h := (lo + hi) / 2;
    forall i | lo <= i < h && !Dominated(list, i, failed) ensures Covers(list[i], list[h]) && Reaches(list, list[i], lo, h) {
      EntryPassesLeft(list, i, lo, hi);
    }
  }

  lemma RightHalf(list: seq<Spec>, lo: nat, hi: nat, failed: set<nat>)
    requires lo < hi <= |list| && ReachableBelow(list, lo, hi, failed)
    ensures var h := (lo + hi) / 2; ReachableBelow(list, h + 1, hi, failed + {h})
  {
    var h := (lo + hi) / 2;
    forall i | h + 1 <= i < hi && !Dominated(list, i, failed + {h}) ensures Reaches(list, list[i], h + 1, hi) {
      assert forall p | p in failed :: p in failed + {h};
      assert h in failed + {h};
      EntryPassesRight(list, i, lo, hi);
    }
  }

  lemma {:induction false} HalvesDominate(list: seq<Spec>, lo: nat, hi: nat, failed: set<nat>)
    requires lo < hi <= |list|
    requires var h := (lo + hi) / 2;
             && LeftDominated(list, lo, h, failed) && ProbesDominate(list, lo, h, failed) && ProbesDominate(list, h + 1, hi, failed + {h})
    ensures ProbesDominate(list, lo, hi, failed)
  {
  }

  lemma {:induction false} BestFitMakesProbesDominate(list: seq<Spec>, lo: nat, hi: nat, failed: set<nat>)
    requires lo <= hi <= |list| && BestFit(list) && ReachableBelow(list, lo, hi, failed)
    ensures ProbesDominate(list, lo, hi, failed)
    decreases hi - lo
  {
    if lo < hi {
      var h := (lo + hi) / 2;
      LeftHalf(list, lo, hi, failed);
      RightHalf(list, lo, hi, failed);
      BestFitMakesProbesDominate(list, lo, h, failed);
      BestFitMakesProbesDominate(list, h + 1, hi, failed + {h});
      HalvesDominate(list, lo, hi, failed);
    }
  }

  lemma EntryIsFoundByItself(list: seq<Spec>, i: nat)
    requires i < |list|
    ensures FirstFit(list, list[i]) <= i
  {
    assert Covers(list[i], list[i]);
  }

  /** On every list, sorted or not, the binary search is a best fit exactly when its probes dominate what they cut off. */
  lemma SearchIsBestFitExactly(list: seq<Spec>)
    ensures BestFit(list) <==> ProbesDominate(list, 0, |list|, {})
  {
    if ProbesDominate(list, 0, |list|, {}) {
      forall want ensures SearchFrom(list, want, 0, |list|) == FirstFit(list, want) {
        DominatedProbesFindFirstFit(list, want, 0, |list|, {});
      }
    }
    if BestFit(list) {
      BestFitMakesProbesDominate(list, 0, |list|, {});
    }
  }

  // ----- sorted lists -----

  /** The order by which the providers sort their list: GPUs, then memory, then vCPUs. */
  predicate NotAfter(a: Spec, b: Spec) {
    if a.gpus != b.gpus then a.gpus < b.gpus
    else if a.memory != b.memory then a.memory < b.memory
    else a.vcpus <= b.vcpus
  }

  ghost predicate Sorted(list: seq<Spec>) {
    forall i, j | 0 <= i < j < |list| :: NotAfter(list[i], list[j])
  }

  ghost predicate Ascending(list: seq<Spec>) {
    forall i, j | 0 <= i < j < |list| :: list[i].vcpus <= list[j].vcpus && list[i].memory <= list[j].memory
  }

  ghost predicate VcpusAscend(list: seq<Spec>) {
    forall i, j | 0 <= i < j < |list| :: list[i].vcpus <= list[j].vcpus
  }

  lemma {:induction false} ChainDominates(list: seq<Spec>, lo: nat, hi: nat, failed: set<nat>)
    requires lo <= hi <= |list|
    requires forall i, j | 0 <= i < j < |list| :: Covers(list[i], list[j])
    ensures ProbesDominate(list, lo, hi, failed)
    decreases hi - lo
  {
    if lo < hi {
      var h := (lo + hi) / 2;
      ChainDominates(list, lo, h, failed);
      ChainDominates(list, h + 1, hi, failed + {h});
    }
  }

  /** A sorted list whose vCPUs and memory also ascend is searched correctly, for every request. */
  lemma AscendingListIsBestFit(list: seq<Spec>, want: Spec)
    requires Sorted(list) && Ascending(list)
    ensures SearchFrom(list, want, 0, |list|) == FirstFit(list, want)
  {
    forall i, j | 0 <= i < j < |list| ensures Covers(list[i], list[j]) {
      assert NotAfter(list[i], list[j]);
    }
    ChainDominates(list, 0, |list|, {});
    SearchIsBestFitExactly(list);
  }

  /** Without GPUs, sorting alone orders memory, so ascending vCPUs are all that is missing. */
  lemma SortedMemoryAscends(list: seq<Spec>)
    requires Sorted(list) && forall s | s in list :: s.gpus == 0
    ensures forall i, j | 0 <= i < j < |list| :: list[i].memory <= list[j].memory
  {
    forall i, j | 0 <= i < j < |list| ensures list[i].memory <= list[j].memory {
      assert NotAfter(list[i], list[j]);
      assert list[i] in list && list[j] in list;
    }
  }

  /** Sorting alone is not enough: a fitting type exists and the search reports none. */
  lemma SortedListCanHideFit()
    ensures var list := [Spec("a", 4, 1, 0), Spec("b", 2, 2, 0)];
            var want := Spec("", 3, 1, 0);
            && Sorted(list) && FirstFit(list, want) == 0 && SearchFrom(list, want, 0, |list|) == |list|
  {
    var list := [Spec("a", 4, 1, 0), Spec("b", 2, 2, 0)];
    var want := Spec("", 3, 1, 0);
    assert SearchFrom(list, want, 2, 2) == 2;
  }

  // ----- the provider functions -----

  datatype Error = NoInstanceType | NotSupported(name: string)

  /** The non-GPU entries, in order. */
  function WithoutGPU(list: seq<Spec>): (r: seq<Spec>)
    ensures forall s :: s in r <==> s in list && s.gpus == 0
  {
    if list == [] then []
    else
      var r := WithoutGPU(list[..|list| - 1]);
      assert list == list[..|list| - 1] + [list[|list| - 1]];
      if list[|list| - 1].gpus == 0 then r + [list[|list| - 1]] else r
  }

  method FilterOutGPUInstances(list: seq<Spec>) returns (filtered: seq<Spec>)
    ensures filtered == WithoutGPU(list)
  {
    filtered := [];
    for i := 0 to |list|
      invariant filtered == WithoutGPU(list[..i])
    {
      assert list[..i + 1][..i] == list[..i];
      if list[i].gpus == 0 {
        filtered := filtered + [list[i]];
      }
    }
    assert list[..|list|] == list;
  }

  lemma {:induction false} FilteringKeepsSorted(list: seq<Spec>)
    requires Sorted(list)
    ensures Sorted(WithoutGPU(list))
  {
    if list != [] {
      FilteringKeepsSorted(list[..|list| - 1]);
      var r := WithoutGPU(list[..|list| - 1]);
      forall i | 0 <= i < |r| ensures NotAfter(r[i], list[|list| - 1]) {
        assert r[i] in r;
        var k :| 0 <= k < |list| - 1 && list[k] == r[i];
      }
    }
  }

  /**
   What `GetBestFitInstanceType` searches: on a sorted list whose entries without GPUs ascend in vCPUs, the
   search is a first-fit scan of those entries, and finds nothing only if none of them fits.
   */
  lemma FilteredSearchIsBestFit(list: seq<Spec>, want: Spec)
    requires Sorted(list) && VcpusAscend(WithoutGPU(list))
    ensures var plain := WithoutGPU(list);
            && SearchFrom(plain, want, 0, |plain|) == FirstFit(plain, want)
            && (FirstFit(plain, want) < |plain| <==> exists s | s in list :: s.gpus == 0 && Covers(want, s))
  {
    var plain := WithoutGPU(list);
    FilteringKeepsSorted(list);
    SortedMemoryAscends(plain);
    AscendingListIsBestFit(plain, want);
    var i := FirstFit(plain, want);
    if i < |plain| {
      assert plain[i] in plain;
    }
    if s :| s in list && s.gpus == 0 && Covers(want, s) {
      assert s in plain;
    }
  }

  function NameAt(list: seq<Spec>, i: nat): Result<string, Error> {
    if i < |list| then Ok(list[i].name) else Err(NoInstanceType)
  }

  /** The filtered list has no GPUs, so a request for none is what the search compares. */
  method GetBestFitInstanceType(list: seq<Spec>, vcpus: int, memory: int) returns (r: Result<string, Error>)
    ensures var plain := WithoutGPU(list);
            r == NameAt(plain, SearchFrom(plain, Spec("", vcpus, memory, 0), 0, |plain|))
  {
    var plain := FilterOutGPUInstances(list);
    var i := Search(plain, Spec("", vcpus, memory, 0));
    return NameAt(plain, i);
  }

  method GetBestFitInstanceTypeWithGPU(list: seq<Spec>, gpus: int, vcpus: int, memory: int) returns (r: Result<string, Error>)
    ensures r == NameAt(list, SearchFrom(list, Spec("", vcpus, memory, gpus), 0, |list|))
  {
    var i := Search(list, Spec("", vcpus, memory, gpus));
    return NameAt(list, i);
  }

  function VerifyCloudInstanceType(name: string, supported: seq<string>, fallback: string): (r: Result<string, Error>)
    ensures r.Ok? && name != "" ==> r.value == name && (supported != [] ==> name in supported)
    ensures r.Err? <==> name != "" && if supported == [] then name != fallback else name !in supported
  {
    if name == "" then Ok(fallback)
    else if |supported| == 0 && name != fallback then Err(NotSupported(name))
    else if |supported| > 0 && name !in supported then Err(NotSupported(name))
    else Ok(name)
  }

  /** What `SelectInstanceTypeToUse` picks before it checks the name. */
  function Pick(want: Spec, list: seq<Spec>): Result<string, Error> {
    if want.name != "" then Ok(want.name)
    else if want.gpus > 0 then NameAt(list, SearchFrom(list, want, 0, |list|))
    else if want.vcpus != 0 && want.memory != 0 then
      var plain := WithoutGPU(list);
      NameAt(plain, SearchFrom(plain, Spec("", want.vcpus, want.memory, 0), 0, |plain|))
    else Ok("")
  }

  function Select(want: Spec, list: seq<Spec>, supported: seq<string>, fallback: string): Result<string, Error> {
    match Pick(want, list)
    case Err(e) => Err(e)
    case Ok(name) => VerifyCloudInstanceType(name, supported, fallback)
  }

  method SelectInstanceTypeToUse(want: Spec, list: seq<Spec>, supported: seq<string>, fallback: string) returns (r: Result<string, Error>)
    ensures r == Select(want, list, supported, fallback)
  {
    var name := "";
    if want.name != "" {
      name := want.name;
    } else if want.gpus > 0 {
      var best := GetBestFitInstanceTypeWithGPU(list, want.gpus, want.vcpus, want.memory);
      if best.Err? {
        return best;
      }
      name := best.value;
    } else if want.vcpus != 0 && want.memory != 0 {
      var best := GetBestFitInstanceType(list, want.vcpus, want.memory);
      if best.Err? {
        return best;
      }
      name := best.value;
    }
    return VerifyCloudInstanceType(name, supported, fallback);
  }

  /** Some listed type of this name offers at least what is wanted. */
  ghost predicate ListedAndCovering(list: seq<Spec>, name: string, want: Spec) {
    exists s | s in list :: s.name == name && s.gpus >= want.gpus && s.vcpus >= want.vcpus && s.memory >= want.memory
  }

  /**
   Whatever the list, a selection driven by resources returns an error or the name of a listed type that
   covers the request.
   */
  lemma SelectionCovers(want: Spec, list: seq<Spec>, supported: seq<string>, fallback: string)
    requires want.name == "" && (want.gpus > 0 || (want.vcpus != 0 && want.memory != 0))
    requires forall s | s in list :: s.name != ""
    ensures var r := Select(want, list, supported, fallback);
            r.Ok? ==> ListedAndCovering(list, r.value, want.(gpus := if want.gpus > 0 then want.gpus else 0))
  {
    if want.gpus > 0 {
      SearchFromIsSound(list, want, 0, |list|);
    } else {
      var plain := WithoutGPU(list);
      SearchFromIsSound(plain, Spec("", want.vcpus, want.memory, 0), 0, |plain|);
    }
  }

  /** A named type is returned exactly if it is supported; a request that names nothing gets the default. */
  lemma NamedTypeIsReturnedExactly(want: Spec, list: seq<Spec>, supported: seq<string>, fallback: string)
    ensures want.name != "" ==>
              Select(want, list, supported, fallback) ==
              if want.name in (if supported == [] then [fallback] else supported) then Ok(want.name) else Err(NotSupported(want.name))
    ensures want.name == "" && want.gpus <= 0 && (want.vcpus == 0 || want.memory == 0) ==>
              Select(want, list, supported, fallback) == Ok(fallback)
  {
  }

  /** Some listed type, with GPUs only if they are wanted, offers at least what is wanted. */
  ghost predicate Fitting(list: seq<Spec>, want: Spec) {
    if want.gpus > 0 then exists s | s in list :: s.gpus >= want.gpus && s.vcpus >= want.vcpus && s.memory >= want.memory
    else exists s | s in list :: s.gpus == 0 && s.vcpus >= want.vcpus && s.memory >= want.memory
  }

  /**
   A request by resources fails before the name check exactly if nothing fits: without GPUs on a sorted
   list whose entries without GPUs ascend in vCPUs, with GPUs on a list whose probes dominate.
   */
  lemma PickFailsExactlyIfNothingFits(want: Spec, list: seq<Spec>)
    requires want.name == "" && (want.gpus > 0 || (want.vcpus != 0 && want.memory != 0))
    requires if want.gpus > 0 then ProbesDominate(list, 0, |list|, {}) else Sorted(list) && VcpusAscend(WithoutGPU(list))
    ensures Pick(want, list).Err? <==> !Fitting(list, want)
    ensures Pick(want, list).Err? ==> Pick(want, list).error == NoInstanceType
  {
    if want.gpus > 0 {
      SearchIsBestFitExactly(list);
      var i := FirstFit(list, want);
      assert SearchFrom(list, want, 0, |list|) == i;
      if i < |list| {
        assert list[i] in list;
      }
    } else {
      var plain := Spec("", want.vcpus, want.memory, 0);
      FilteredSearchIsBestFit(list, plain);
      if s :| s in list && s.gpus == 0 && s.vcpus >= want.vcpus && s.memory >= want.memory {
        assert Covers(plain, s);
      }
      if s :| s in list && s.gpus == 0 && Covers(plain, s) {
        assert s.vcpus >= want.vcpus;
      }
    }
  }
}
