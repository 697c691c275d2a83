/** The number a path is known by at both ends. */
module Ids {
  datatype Path = Path(id: nat)
}
