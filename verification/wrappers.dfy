/** `Option` stands for a C# nullable result (`Intersection?`, `PointLight?`). */
module Wrappers {

  datatype Option<+T> = None | Some(value: T)
}
