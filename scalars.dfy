/**
 * Scalars of the engine: a tagged value with a validity status, the "none"
 * scalar that invalid cells are replaced by, and the one-byte operation tag
 * carried by every row of a flattened batch.
 */
module Scalars {

  /** Column data types (the subset of the engine's type enumeration this model needs). */
  datatype DType = DNone | DInt32 | DInt64 | DFloat64 | DBool | DDate | DTime | DStr | DObject

  /** Validity status of a scalar: only a VALID scalar holds a value a view may return. */
  datatype Status = StatusInvalid | StatusValid | StatusClear

  /** The payload of a scalar; floating point payloads are not modelled. */
  datatype Payload = NoData | Number(n: int) | Text(s: string) | Flag(b: bool)

  datatype Scalar = Scalar(dtype: DType, status: Status, payload: Payload)

  predicate IsValid(v: Scalar) {
    v.status == StatusValid
  }

  /** The "none" scalar: type NONE, valid, no payload. */
  function MkNone(): (r: Scalar)
    ensures IsValid(r) && r.dtype == DNone
  {
    Scalar(DNone, StatusValid, NoData)
  }

  /**
   * What every data query does to a cell before returning it: a valid cell is
   * returned as it is, any other (invalid or cleared) cell becomes "none".
   */
  function Normalize(v: Scalar): (r: Scalar)
    ensures IsValid(r)
    ensures IsValid(v) ==> r == v
    ensures !IsValid(v) ==> r == MkNone()
  {
    if IsValid(v) then v else MkNone()
  }

  /** An unsigned byte, the storage type of the operation column. */
  newtype u8 = x: int | 0 <= x < 256

  /** Operation tags as stored in the operation column of a flattened batch. */
  const OP_INSERT: u8 := 0
  const OP_DELETE: u8 := 1
  const OP_CLEAR: u8 := 2

  /** The tags the unpivoted context accepts in a non-first batch. */
  predicate KnownOp(op: u8) {
    op == OP_INSERT || op == OP_DELETE
  }

  /** Interning is a function on scalars that never maps two distinct values to one handle. */
  ghost predicate Injective(intern: Scalar -> Scalar) {
    forall a, b :: intern(a) == intern(b) ==> a == b
  }
}
