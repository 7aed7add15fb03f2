/** Option type used for the generator's failure results and the runtime's
    failed decodes. */
module Wrappers {

  datatype Option<+T> = None | Some(value: T)

}
