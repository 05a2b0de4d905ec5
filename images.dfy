/** Device images as the rest of the model sees them: a channel data type,
    three-dimensional extents and an identity. The device itself (ClearCL)
    is outside the model; an image is a value naming one allocation. */
module Images {

  /** The single-channel OpenCL element types an image can carry. */
  datatype DataType =
    | SignedInt8 | SignedInt16 | SignedInt32
    | UnsignedInt8 | UnsignedInt16 | UnsignedInt32
    | HalfFloat | Float

  /** Integer element types are read and written with the `ui`/`i` image
      built-ins; the two floating-point types with the `f` ones. */
  predicate IsInteger(t: DataType) {
    !(t == HalfFloat || t == Float)
  }

  /** Bytes per element of each channel type. */
  function BytesPerVoxel(t: DataType): (r: nat)
    ensures r >= 1
  {
    match t
    case SignedInt8 => 1
    case UnsignedInt8 => 1
    case SignedInt16 => 2
    case UnsignedInt16 => 2
    case HalfFloat => 2
    case SignedInt32 => 4
    case UnsignedInt32 => 4
    case Float => 4
  }

  function Product(dims: seq<nat>): nat {
    if |dims| == 0 then 1 else Product(dims[..|dims| - 1]) * dims[|dims| - 1]
  }

  /** The pool key of an image: its data type and dimensions. */
  datatype Key = Key(dataType: DataType, dims: seq<nat>)

  /** A device image: `id` distinguishes two allocations of equal shape. */
  datatype Image = Image(id: nat, dataType: DataType, dims: seq<nat>)

  function KeyOf(img: Image): Key {
    Key(img.dataType, img.dims)
  }

  /** The size of a single-channel image in bytes. */
  function SizeInBytes(k: Key): nat {
    BytesPerVoxel(k.dataType) * Product(k.dims)
  }

  function Bytes(img: Image): nat {
    SizeInBytes(KeyOf(img))
  }
}
