/** Optional values, used for the failure paths of the collaborators
    (an audio read that fails, a chunk read that fails). */
module Wrappers {

  datatype Option<+T> = None | Some(value: T)

}
