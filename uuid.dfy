/** `uuid.UUID` from github.com/google/uuid: sixteen bytes. */
module Uuid {

  type Uuid = b: seq<bv8> | |b| == 16 witness Nil

  /** The zero value of a `uuid.UUID` (`uuid.Nil`), all sixteen bytes zero. */
  const Nil: seq<bv8> := [0, 0, 0, 0, 0, 0, 0, 0, 0, 0, 0, 0, 0, 0, 0, 0]
}
