/** Optional values and results with an error, used wherever the source returns
    `undefined`, throws, or hands back a zod `safeParse` outcome. */
module Wrappers {

  datatype Option<+T> = None | Some(value: T)

  datatype Result<+T, +E> = Ok(value: T) | Err(error: E)
}
