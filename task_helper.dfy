/** Data-type admissibility of the fusion kernels and the preprocessor
    defines that specialise a kernel to its input and output types
    (TaskHelper). A Java `null` argument is `None`. */
module TaskHelper {
  import opened Images
  import opened Wrappers

  /** The kernels are compiled for 32-bit float and 16-bit unsigned images only. */
  predicate AllowedDataType(t: DataType): (r: bool)
    ensures r <==> t != SignedInt8 && t != SignedInt16 && t != SignedInt32
                   && t != UnsignedInt8 && t != UnsignedInt32 && t != HalfFloat
  {
    t == Float || t == UnsignedInt16
  }

  /** allowedDataType(types...): true for a null array; otherwise scans the
      types in order and answers false at the first one not allowed. */
  method AllowedDataTypes(types: Option<seq<DataType>>) returns (ok: bool)
    ensures ok <==> types.None? || forall i :: 0 <= i < |types.value| ==> AllowedDataType(types.value[i])
  {
    if types.None? {
      return true;
    }
    var ts := types.value;
    var i := 0;
    while i < |ts|
      invariant 0 <= i <= |ts|
      invariant forall j :: 0 <= j < i ==> AllowedDataType(ts[j])
    {
      if !AllowedDataType(ts[i]) {
        return false;
      }
      i := i + 1;
    }
    return true;
  }

  /** allowedDataType(images...): the channel types of the images are
      gathered into an array and checked as above. */
  method AllowedImages(images: Option<seq<Image>>) returns (ok: bool)
    ensures ok <==> images.None? || forall i :: 0 <= i < |images.value| ==> AllowedDataType(images.value[i].dataType)
  {
    if images.None? {
      return true;
    }
    var imgs := images.value;
    var dataTypes := new DataType[|imgs|];
    var i := 0;
    while i < |imgs|
      invariant 0 <= i <= |imgs|
      invariant forall j :: 0 <= j < i ==> dataTypes[j] == imgs[j].dataType
    {
      dataTypes[i] := imgs[i].dataType;
      i := i + 1;
    }
    ok := AllowedDataTypes(Some(dataTypes[..]));
  }

  const DefineNames: set<string> := {"DTYPE_IN", "DTYPE_OUT", "READ_IMAGE", "WRITE_IMAGE"}

  /** getOpenCLDefines(in, out): the element types and the image read/write
      built-ins the kernel source is compiled with. Both types must be allowed. */
  function GetOpenCLDefines(tin: DataType, tout: DataType): (r: map<string, string>)
    requires AllowedDataType(tin) && AllowedDataType(tout)
    ensures r.Keys == DefineNames
  {
    map["DTYPE_IN" := if IsInteger(tin) then "ushort" else "float",
        "DTYPE_OUT" := if IsInteger(tout) then "ushort" else "float",
        "READ_IMAGE" := if IsInteger(tin) then "read_imageui" else "read_imagef",
        "WRITE_IMAGE" := if IsInteger(tout) then "write_imageui" else "write_imagef"]
  }

  /** getOpenCLDefines(imageIn, imageOut): the same table on the two channel types. */
  function GetOpenCLDefinesForImages(imgIn: Image, imgOut: Image): (r: map<string, string>)
    requires AllowedDataType(imgIn.dataType) && AllowedDataType(imgOut.dataType)
    ensures r == GetOpenCLDefines(imgIn.dataType, imgOut.dataType)
  {
    GetOpenCLDefines(imgIn.dataType, imgOut.dataType)
  }

  /** The input-side defines depend on the input type only, the output-side
      defines on the output type only. */
  lemma DefinesSeparate(tin: DataType, tout: DataType, tin': DataType, tout': DataType)
    requires AllowedDataType(tin) && AllowedDataType(tout) && AllowedDataType(tin') && AllowedDataType(tout')
    ensures tin == tin' ==>
              (GetOpenCLDefines(tin, tout)["DTYPE_IN"] == GetOpenCLDefines(tin', tout')["DTYPE_IN"]
               && GetOpenCLDefines(tin, tout)["READ_IMAGE"] == GetOpenCLDefines(tin', tout')["READ_IMAGE"])
    ensures tout == tout' ==>
              (GetOpenCLDefines(tin, tout)["DTYPE_OUT"] == GetOpenCLDefines(tin', tout')["DTYPE_OUT"]
               && GetOpenCLDefines(tin, tout)["WRITE_IMAGE"] == GetOpenCLDefines(tin', tout')["WRITE_IMAGE"])
  {
  }

  /** The defines tell the two admissible types apart: 16-bit unsigned images
      use `ushort` and the `ui` built-ins, float images `float` and the `f` ones. */
  lemma DefinesDistinguishTypes(tin: DataType, tout: DataType)
    requires AllowedDataType(tin) && AllowedDataType(tout)
    ensures GetOpenCLDefines(tin, tout)["DTYPE_IN"] == (if tin == UnsignedInt16 then "ushort" else "float")
    ensures GetOpenCLDefines(tin, tout)["READ_IMAGE"] == (if tin == UnsignedInt16 then "read_imageui" else "read_imagef")
    ensures GetOpenCLDefines(tin, tout)["DTYPE_OUT"] == (if tout == UnsignedInt16 then "ushort" else "float")
    ensures GetOpenCLDefines(tin, tout)["WRITE_IMAGE"] == (if tout == UnsignedInt16 then "write_imageui" else "write_imagef")
  {
  }
}
