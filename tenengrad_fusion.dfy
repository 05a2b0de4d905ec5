/** The fusion task with externally provided weights
    (TenengradAdvancedFusionTask): it splits one key array into image keys
    and weight keys, and its enqueue picks the kernel for the image count and
    lays out the kernel arguments. */
module TenengradFusion {
  import opened Images
  import opened Wrappers
  import opened TaskHelper

  function Digit(d: nat): char
    requires d < 10
  {
    "0123456789"[d]
  }

  /** Decimal rendering of a natural number, as `%d` prints it. */
  function NatToString(n: nat): (s: string)
    ensures |s| >= 1
    decreases n
  {
    if n < 10 then [Digit(n)] else NatToString(n / 10) + [Digit(n % 10)]
  }

  lemma DigitInjective(a: nat, b: nat)
    requires a < 10 && b < 10 && Digit(a) == Digit(b)
    ensures a == b
  {
  }

  lemma NatToStringLength(n: nat)
    ensures n < 10 <==> |NatToString(n)| == 1
  {
    if n >= 10 {
      assert |NatToString(n)| == |NatToString(n / 10)| + 1;
    }
  }

  /** Different counts print differently. */
  lemma {:induction false} NatToStringInjective(a: nat, b: nat)
    requires NatToString(a) == NatToString(b)
    ensures a == b
    decreases a
  {
    var s := NatToString(a);
    NatToStringLength(a);
    NatToStringLength(b);
    if a < 10 && b < 10 {
      DigitInjective(a, b);
    } else if a >= 10 && b >= 10 {
      assert s[|s| - 1] == Digit(a % 10) == Digit(b % 10);
      DigitInjective(a % 10, b % 10);
      assert s[..|s| - 1] == NatToString(a / 10) == NatToString(b / 10);
      NatToStringInjective(a / 10, b / 10);
    }
  }

  const KernelPrefix := "tenengrad_fusion_with_provided_weights_"
  const KernelSuffix := "_images"

  /** The kernel name for fusing `n` images. */
  function KernelName(n: nat): (r: string)
    ensures |r| > |KernelPrefix| + |KernelSuffix|
    ensures r[..|KernelPrefix|] == KernelPrefix && r[|r| - |KernelSuffix|..] == KernelSuffix
  {
    KernelPrefix + NatToString(n) + KernelSuffix
  }

  /** Each image count has its own kernel. */
  lemma KernelNameInjective(a: nat, b: nat)
    requires KernelName(a) == KernelName(b)
    ensures a == b
  {
    var x, y := KernelName(a), KernelName(b);
    var p, q := |KernelPrefix|, |KernelSuffix|;
    assert x[p..|x| - q] == NatToString(a);
    assert y[p..|y| - q] == NatToString(b);
    NatToStringInjective(a, b);
  }

  /** What enqueue hands the device: the kernel, its defines, the arguments
      by position, and the global size (the destination dimensions). */
  datatype Dispatch = Dispatch(kernel: string, defines: map<string, string>,
                               args: map<nat, Image>, globalSizes: seq<nat>)

  /** The argument positions: 0 is the destination, 1..n the images in order,
      n+1..2n the weights in order. */
  ghost predicate ArgumentLayout(args: map<nat, Image>, dst: Image, images: seq<Image>, weights: seq<Image>)
    requires |images| == |weights|
  {
    var n := |images|;
    && (forall p: nat :: p in args <==> p <= 2 * n)
    && 0 in args && args[0] == dst
    && (forall j :: 0 <= j < n ==> args[1 + j] == images[j])
    && (forall j :: 0 <= j < n ==> args[1 + n + j] == weights[j])
  }

  /** The images the engine holds under the given keys, in key order. */
  function Fetch(getImage: string -> Image, keys: seq<string>): (r: seq<Image>)
    ensures |r| == |keys| && forall j :: 0 <= j < |keys| ==> r[j] == getImage(keys[j])
  {
    seq(|keys|, j requires 0 <= j < |keys| => getImage(keys[j]))
  }

  /** The image types the kernel accepts: admissible and uniform sources,
      an admissible destination, float weights. */
  predicate TypesAdmissible(images: seq<Image>, weights: seq<Image>, dstType: DataType)
    requires |images| >= 1
  {
    && (forall j :: 0 <= j < |images| ==> AllowedDataType(images[j].dataType))
    && AllowedDataType(dstType)
    && (forall j :: 0 <= j < |images| ==> images[j].dataType == images[0].dataType)
    && (forall j :: 0 <= j < |weights| ==> weights[j].dataType == Float)
  }

  /** setArgument(i++, ...) over the destination, then the images, then the weights. */
  method SetArguments(dst: Image, images: seq<Image>, weights: seq<Image>) returns (args: map<nat, Image>)
    requires |images| == |weights|
    ensures ArgumentLayout(args, dst, images, weights)
  {
    var n := |images|;
    var i: nat := 0;
    args := map[i := dst];
    i := i + 1;
    var j := 0;
    while j < n
      invariant 0 <= j <= n && i == 1 + j
      invariant forall p: nat :: p in args <==> p < i
      invariant args[0] == dst
      invariant forall k :: 0 <= k < j ==> args[1 + k] == images[k]
    {
      args := args[i := images[j]];
      i := i + 1;
      j := j + 1;
    }
    j := 0;
    while j < n
      invariant 0 <= j <= n && i == 1 + n + j
      invariant forall p: nat :: p in args <==> p < i
      invariant args[0] == dst
      invariant forall k :: 0 <= k < n ==> args[1 + k] == images[k]
      invariant forall k :: 0 <= k < j ==> args[1 + n + k] == weights[k]
    {
      args := args[i := weights[j]];
      i := i + 1;
      j := j + 1;
    }
  }

  class TenengradAdvancedFusionTask {
    const dstKey: string
    const dstType: Option<DataType>
    var imageKeys: seq<string>
    var weightKeys: seq<string>
    /** The slot keys the task waits for: all given keys. */
    var requiredKeys: set<string>

    /** The key array must have even length: its first half names the images,
        its second half their weights, in the same order. */
    constructor (dstKey: string, dstType: Option<DataType>, keys: seq<string>)
      requires |keys| % 2 == 0
      ensures this.dstKey == dstKey && this.dstType == dstType
      ensures |imageKeys| == |weightKeys| == |keys| / 2
      ensures forall i :: 0 <= i < |keys| / 2 ==> imageKeys[i] == keys[i] && weightKeys[i] == keys[|keys| / 2 + i]
      ensures requiredKeys == set k | k in keys
    {
      this.dstKey := dstKey;
      this.dstType := dstType;
      requiredKeys := set k | k in keys;
      var n := |keys| / 2;
      var imgs := new string[n];
      var wts := new string[n];
      var i := 0;
      while i < n
        invariant 0 <= i <= n
        invariant forall j :: 0 <= j < i ==> imgs[j] == keys[j] && wts[j] == keys[n + j]
      {
        imgs[i] := keys[i];
        wts[i] := keys[n + i];
        i := i + 1;
      }
      imageKeys := imgs[..];
      weightKeys := wts[..];
    }

    /** The destination type: the configured one, else that of the first source image. */
    function DstType(images: seq<Image>): (t: DataType)
      requires |images| >= 1
      reads this
      ensures dstType.Some? ==> t == dstType.value
      ensures dstType.None? ==> t == images[0].dataType
    {
      if dstType.None? then images[0].dataType else dstType.value
    }

    /** enqueue: fetches the images and weights by key, allocates the
        destination with the first image's dimensions (`dstId` names the
        image the engine hands back), and dispatches the kernel for n images. */
    method Enqueue(getImage: string -> Image, dstId: nat) returns (d: Dispatch, dst: Image)
      requires |imageKeys| == |weightKeys| >= 1
      requires TypesAdmissible(Fetch(getImage, imageKeys), Fetch(getImage, weightKeys), DstType(Fetch(getImage, imageKeys)))
      ensures dst.dataType == (if dstType.Some? then dstType.value else getImage(imageKeys[0]).dataType)
      ensures dst.id == dstId && dst.dims == getImage(imageKeys[0]).dims
      ensures d.kernel == KernelName(|imageKeys|)
      ensures d.defines == GetOpenCLDefines(getImage(imageKeys[0]).dataType, dst.dataType)
      ensures d.globalSizes == dst.dims
      ensures ArgumentLayout(d.args, dst, Fetch(getImage, imageKeys), Fetch(getImage, weightKeys))
    {
      var n := |imageKeys|;
      var images := Fetch(getImage, imageKeys);
      var weights := Fetch(getImage, weightKeys);
      var ty := DstType(images);
      dst := Image(dstId, ty, images[0].dims);
      var args := SetArguments(dst, images, weights);
      d := Dispatch(KernelName(n), GetOpenCLDefines(images[0].dataType, ty), args, dst.dims);
    }
  }

  /** The two halves put back together are the constructor's key array. */
  lemma SplitRecovers(keys: seq<string>, imageKeys: seq<string>, weightKeys: seq<string>)
    requires |keys| % 2 == 0 && |imageKeys| == |weightKeys| == |keys| / 2
    requires forall i :: 0 <= i < |keys| / 2 ==> imageKeys[i] == keys[i] && weightKeys[i] == keys[|keys| / 2 + i]
    ensures imageKeys + weightKeys == keys
  {
  }
}
