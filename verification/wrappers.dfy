/** Optional values: `None` stands for JavaScript's `undefined` (a missing
    array element, an exhausted prompt, a failed call whose error was caught). */
module Wrappers {

  datatype Option<+T> = None | Some(value: T)
}
