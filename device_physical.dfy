/**
 * The selection rules of the Vulkan physical device wrapper (rvk, parts/device_physical.cpp):
 * extension lookup, the choice of a queue family for a set of capabilities and presentation
 * surfaces, the choice of a memory type, and the queue request check that precedes logical
 * device creation.
 *
 * Surfaces (the source's void* window handles) are natural numbers; extension names are
 * strings compared for equality as strcmp does.
 */
module DevicePhysical {
  import opened PublicUtil

  /** PhysicalDevice::Queue: the Vulkan queue capability bits. */
  const GRAPHICS: bv32 := 1
  const COMPUTE: bv32 := 2
  const TRANSFER: bv32 := 4

  /**
   * QueueFamily_s together with the queue count of the family's VkQueueFamilyProperties:
   * which surfaces the family can present to (a surface absent from the map was never
   * queried), its capabilities, and how many queues it offers.
   */
  datatype QueueFamily = QueueFamily(presentation: map<nat, bool>, graphics: bool, compute: bool,
                                     transfer: bool, queueCount: nat)

  function Bit(b: bool): nat { if b then 1 else 0 }

  /** Some requested surface has no entry in the family's presentation map. */
  predicate Missing(qf: QueueFamily, surfaces: seq<nat>)
  {
    exists k :: 0 <= k < |surfaces| && surfaces[k] !in qf.presentation
  }

  /** Some family lacks an entry for some requested surface. */
  predicate AnyMissing(fs: seq<QueueFamily>, surfaces: seq<nat>)
  {
    exists i :: 0 <= i < |fs| && Missing(fs[i], surfaces)
  }

  /** The family can present to every requested surface. */
  predicate Presents(qf: QueueFamily, surfaces: seq<nat>)
  {
    forall k :: 0 <= k < |surfaces| ==> surfaces[k] in qf.presentation && qf.presentation[surfaces[k]]
  }

  /** The family has every capability whose bit is set in flags. */
  predicate HasCapabilities(qf: QueueFamily, flags: bv32)
  {
    (flags & GRAPHICS != 0 ==> qf.graphics)
    && (flags & COMPUTE != 0 ==> qf.compute)
    && (flags & TRANSFER != 0 ==> qf.transfer)
  }

  /** checkQueueFamily's verdict: every surface supported and every requested capability present. */
  predicate Compatible(qf: QueueFamily, flags: bv32, surfaces: seq<nat>)
  {
    Presents(qf, surfaces) && HasCapabilities(qf, flags)
  }

  /**
   * The uint8_t score of getQueueFamilyIndex after the first n surfaces: one point per
   * capability the family has and one per surface it can present to, wrapping at 256. A low
   * score means a specialised family.
   */
  function Score(qf: QueueFamily, surfaces: seq<nat>, n: nat): (r: nat)
    requires n <= |surfaces|
    ensures r < 256
  {
    if n == 0 then Bit(qf.graphics) + Bit(qf.compute) + Bit(qf.transfer)
    else
      var s := surfaces[n - 1];
      (Score(qf, surfaces, n - 1) + (if s in qf.presentation then Bit(qf.presentation[s]) else 0)) % 256
  }

  function FullScore(qf: QueueFamily, surfaces: seq<nat>): nat
  {
    Score(qf, surfaces, |surfaces|)
  }

  /**
   * Family b is the one to pick: compatible, of minimal score among the compatible
   * families, and strictly better than every compatible family before it.
   */
  predicate IsBest(fs: seq<QueueFamily>, flags: bv32, surfaces: seq<nat>, b: nat)
  {
    b < |fs| && Compatible(fs[b], flags, surfaces)
    && (forall j :: 0 <= j < |fs| && Compatible(fs[j], flags, surfaces) ==>
          FullScore(fs[b], surfaces) <= FullScore(fs[j], surfaces))
    && (forall j :: 0 <= j < b && Compatible(fs[j], flags, surfaces) ==>
          FullScore(fs[b], surfaces) < FullScore(fs[j], surfaces))
  }

  /** The choice is determined: at most one family is the one to pick. */
  lemma BestIsUnique(fs: seq<QueueFamily>, flags: bv32, surfaces: seq<nat>, a: nat, b: nat)
    requires IsBest(fs, flags, surfaces, a) && IsBest(fs, flags, surfaces, b)
    ensures a == b
  {
  }

  /** Whenever some family is compatible (and no surface entry is missing), one is the one to pick. */
  lemma {:induction false} BestExists(fs: seq<QueueFamily>, flags: bv32, surfaces: seq<nat>, i: nat)
    requires i < |fs| && Compatible(fs[i], flags, surfaces)
    ensures exists b :: 0 <= b < |fs| && IsBest(fs, flags, surfaces, b)
    decreases FullScore(fs[i], surfaces)
  {
    var lower := set j | 0 <= j < |fs| && Compatible(fs[j], flags, surfaces)
                         && FullScore(fs[j], surfaces) < FullScore(fs[i], surfaces);
    if lower != {} {
      var j :| j in lower;
      BestExists(fs, flags, surfaces, j);
    } else {
      var b := FirstWithScore(fs, flags, surfaces, FullScore(fs[i], surfaces), i);
      forall j | 0 <= j < |fs| && Compatible(fs[j], flags, surfaces)
        ensures FullScore(fs[b], surfaces) <= FullScore(fs[j], surfaces)
      {
        assert j !in lower;
      }
      assert IsBest(fs, flags, surfaces, b);
    }
  }

  /** The first compatible family of a given score, found at or before a family that has it. */
  function FirstWithScore(fs: seq<QueueFamily>, flags: bv32, surfaces: seq<nat>, score: nat, i: nat): (b: nat)
    requires i < |fs| && Compatible(fs[i], flags, surfaces) && FullScore(fs[i], surfaces) == score
    ensures b <= i && Compatible(fs[b], flags, surfaces) && FullScore(fs[b], surfaces) == score
    ensures forall j :: 0 <= j < b && Compatible(fs[j], flags, surfaces) ==> FullScore(fs[j], surfaces) != score
    decreases i
  {
    if exists j :: 0 <= j < i && Compatible(fs[j], flags, surfaces) && FullScore(fs[j], surfaces) == score then
      var j :| 0 <= j < i && Compatible(fs[j], flags, surfaces) && FullScore(fs[j], surfaces) == score;
      FirstWithScore(fs, flags, surfaces, score, j)
    else i
  }

  /** The type bit of memory type i, 1 << i, written as i doublings of 1. */
  function TypeBit(i: nat): bv32
    requires i < 32
  {
    if i == 0 then 1 else TypeBit(i - 1) << 1
  }

  /** Memory type i is allowed by the type bits and has at least the requested property flags. */
  predicate Suitable(memoryTypes: seq<bv32>, properties: bv32, typeBits: bv32, i: nat)
    requires i < |memoryTypes| && i < 32
  {
    typeBits & TypeBit(i) != 0 && IsBitSet(memoryTypes[i], properties)
  }

  /** The first suitable memory type at or after `from`, or -1 when there is none. */
  function FirstSuitable(memoryTypes: seq<bv32>, properties: bv32, typeBits: bv32, from: nat): int
    requires from <= |memoryTypes| <= 32
    decreases |memoryTypes| - from
  {
    if from == |memoryTypes| then -1
    else if Suitable(memoryTypes, properties, typeBits, from) then from
    else FirstSuitable(memoryTypes, properties, typeBits, from + 1)
  }

  /**
   * findMemoryTypeIndex's result: -1 exactly when no memory type is suitable, and otherwise
   * the first suitable one.
   */
  lemma {:induction false} FirstSuitableSpec(memoryTypes: seq<bv32>, properties: bv32, typeBits: bv32, from: nat)
    requires from <= |memoryTypes| <= 32
    ensures var r := FirstSuitable(memoryTypes, properties, typeBits, from);
            && (r == -1 <==> forall i :: from <= i < |memoryTypes| ==> !Suitable(memoryTypes, properties, typeBits, i))
            && (r != -1 ==> from <= r < |memoryTypes| && Suitable(memoryTypes, properties, typeBits, r)
                            && forall i :: from <= i < r ==> !Suitable(memoryTypes, properties, typeBits, i))
    decreases |memoryTypes| - from
  {
    if from < |memoryTypes| && !Suitable(memoryTypes, properties, typeBits, from) {
      FirstSuitableSpec(memoryTypes, properties, typeBits, from + 1);
    }
  }

  /**
   * PhysicalDevice: the properties queried from the driver when the wrapper is made, which the
   * selection rules only read.
   */
  class PhysicalDevice {
    const extensions: seq<string>
    const queueFamilies: seq<QueueFamily>
    /** The property flags of each memory type; Vulkan reports at most 32 of them. */
    const memoryTypes: seq<bv32>

    constructor (extensions: seq<string>, queueFamilies: seq<QueueFamily>, memoryTypes: seq<bv32>)
      ensures this.extensions == extensions && this.queueFamilies == queueFamilies
      ensures this.memoryTypes == memoryTypes
    {
      this.extensions := extensions;
      this.queueFamilies := queueFamilies;
      this.memoryTypes := memoryTypes;
    }

    /** isExtensionAvailable: true exactly when some reported extension has the name. */
    method IsExtensionAvailable(extension: string) returns (r: bool)
      ensures r <==> exists i :: 0 <= i < |extensions| && extensions[i] == extension
    {
      for i := 0 to |extensions|
        invariant forall j :: 0 <= j < i ==> extensions[j] != extension
      {
        if extension == extensions[i] {
          return true;
        }
      }
      return false;
    }

    /** areExtensionsAvailable: true exactly when every requested extension is available. */
    method AreExtensionsAvailable(requested: seq<string>) returns (r: bool)
      ensures r <==> forall k :: 0 <= k < |requested| ==> requested[k] in extensions
    {
      for k := 0 to |requested|
        invariant forall m :: 0 <= m < k ==> requested[m] in extensions
      {
        var available := IsExtensionAvailable(requested[k]);
        if !available {
          return false;
        }
      }
      return true;
    }

    /**
     * checkQueueFamily: false as soon as a surface has no entry; otherwise whether every
     * surface is supported and every requested capability present. The source indexes the
     * family list unchecked.
     */
    method CheckQueueFamily(familyIndex: nat, flags: bv32, surfaces: seq<nat>) returns (r: bool)
      requires familyIndex < |queueFamilies|
      ensures r <==> Compatible(queueFamilies[familyIndex], flags, surfaces)
    {
      var qf := queueFamilies[familyIndex];
      var compatible := true;
      for k := 0 to |surfaces|
        invariant forall m :: 0 <= m < k ==> surfaces[m] in qf.presentation
        invariant compatible <==> forall m :: 0 <= m < k ==> qf.presentation[surfaces[m]]
      {
        if surfaces[k] !in qf.presentation {
          return false;
        }
        compatible := compatible && qf.presentation[surfaces[k]];
      }
      if flags & GRAPHICS != 0 { compatible := compatible && qf.graphics; }
      if flags & COMPUTE != 0 { compatible := compatible && qf.compute; }
      if flags & TRANSFER != 0 { compatible := compatible && qf.transfer; }
      r := compatible;
    }

    /** The inner loop of getQueueFamilyIndex for one family: a missing surface entry, or its score and compatibility. */
    method SurveyFamily(familyIndex: nat, flags: bv32, surfaces: seq<nat>) returns (missing: bool, score: nat, compatible: bool)
      requires familyIndex < |queueFamilies|
      ensures missing <==> Missing(queueFamilies[familyIndex], surfaces)
      ensures !missing ==> score == FullScore(queueFamilies[familyIndex], surfaces)
      ensures !missing ==> (compatible <==> Compatible(queueFamilies[familyIndex], flags, surfaces))
    {
      var qf := queueFamilies[familyIndex];
      score := Bit(qf.graphics) + Bit(qf.compute) + Bit(qf.transfer);
      compatible := true;
      for k := 0 to |surfaces|
        invariant forall m :: 0 <= m < k ==> surfaces[m] in qf.presentation
        invariant score == Score(qf, surfaces, k)
        invariant compatible <==> forall m :: 0 <= m < k ==> qf.presentation[surfaces[m]]
      {
        if surfaces[k] !in qf.presentation {
          return true, score, false;
        }
        score := (score + Bit(qf.presentation[surfaces[k]])) % 256;
        compatible := compatible && qf.presentation[surfaces[k]];
      }
      if flags & GRAPHICS != 0 { compatible := compatible && qf.graphics; }
      if flags & COMPUTE != 0 { compatible := compatible && qf.compute; }
      if flags & TRANSFER != 0 { compatible := compatible && qf.transfer; }
      missing := false;
    }

    /**
     * getQueueFamilyIndex: -1 when any family lacks an entry for a requested surface or when
     * no family is compatible; otherwise the compatible family of lowest score, the earliest
     * one among equals.
     */
    method GetQueueFamilyIndex(flags: bv32, surfaces: seq<nat>) returns (best: int)
      ensures best == -1 <==>
                AnyMissing(queueFamilies, surfaces)
                || forall j :: 0 <= j < |queueFamilies| ==> !Compatible(queueFamilies[j], flags, surfaces)
      ensures best != -1 ==> 0 <= best < |queueFamilies| && IsBest(queueFamilies, flags, surfaces, best)
    {
      var fs := queueFamilies;
      best := -1;
      var bestScore := 0;
      for i := 0 to |fs|
        invariant forall j :: 0 <= j < i ==> !Missing(fs[j], surfaces)
        invariant best == -1 <==> forall j :: 0 <= j < i ==> !Compatible(fs[j], flags, surfaces)
        invariant best != -1 ==> 0 <= best < i && Compatible(fs[best], flags, surfaces)
                                 && bestScore == FullScore(fs[best], surfaces)
        invariant best != -1 ==> forall j :: 0 <= j < i && Compatible(fs[j], flags, surfaces) ==>
                                   bestScore <= FullScore(fs[j], surfaces)
        invariant best != -1 ==> forall j :: 0 <= j < best && Compatible(fs[j], flags, surfaces) ==>
                                   bestScore < FullScore(fs[j], surfaces)
      {
        var missing, score, compatible := SurveyFamily(i, flags, surfaces);
        if missing {
          return -1;
        }
        if compatible {
          if best == -1 {
            best, bestScore := i, score;
          } else if score < bestScore {
            best, bestScore := i, score;
          }
        }
      }
    }

    /** findMemoryTypeIndex: the steps of the source, proved to compute FirstSuitable. */
    method FindMemoryTypeIndex(properties: bv32, typeBits: bv32) returns (r: int)
      requires |memoryTypes| <= 32
      ensures r == FirstSuitable(memoryTypes, properties, typeBits, 0)
    {
      for memoryIndex := 0 to |memoryTypes|
        invariant FirstSuitable(memoryTypes, properties, typeBits, 0) == FirstSuitable(memoryTypes, properties, typeBits, memoryIndex)
      {
        var memoryTypeBits := TypeBit(memoryIndex);
        var isRequiredMemoryType := typeBits & memoryTypeBits != 0;
        var hasRequiredProperties := memoryTypes[memoryIndex] & properties == properties;
        if isRequiredMemoryType && hasRequiredProperties {
          return memoryIndex;
        }
      }
      return -1;
    }

    /**
     * The checks at the head of createLogicalDevice, over (family index, number of queue
     * priorities) requests: false (no device) when a request names a family that does not
     * exist or asks for more queues than the family has; true where the source goes on to
     * create the device.
     */
    method CreateLogicalDevice(queues: seq<(nat, nat)>) returns (created: bool)
      ensures created <==> forall k :: 0 <= k < |queues| ==> ValidRequest(queueFamilies, queues[k])
    {
      for k := 0 to |queues|
        invariant forall m :: 0 <= m < k ==> ValidRequest(queueFamilies, queues[m])
      {
        if queues[k].0 >= |queueFamilies| {
          return false;
        }
        if queues[k].1 > queueFamilies[queues[k].0].queueCount {
          return false;
        }
      }
      return true;
    }
  }

  /** A queue request names an existing family and asks for no more queues than it offers. */
  predicate ValidRequest(fs: seq<QueueFamily>, request: (nat, nat))
  {
    request.0 < |fs| && request.1 <= fs[request.0].queueCount
  }
}
