/** Types and limits shared by all modules. */
module Common {
  // src/percetto.h:42-46
  const MAX_CATEGORIES: nat := 64
  const MAX_GROUP_CATEGORIES: nat := 32
  const MAX_GROUP_SIZE: nat := 4
  const MAX_CATEGORY_TAGS: nat := 4
  const MAX_TRACKS: nat := 32

  /** Sums of masks are kept in 32 bits. */
  const MAX_SESSIONS: nat := 32

  datatype Option<+T> = None | Some(value: T)

  /** The address of a name, where names are told apart by address. */
  type Address = nat

  ghost predicate Distinct<T>(list: seq<T>) {
    forall i, j :: 0 <= i < j < |list| ==> list[i] != list[j]
  }
}
