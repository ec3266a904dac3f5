/** Swift's optionals (`UIColor?`, `CGFloat?`, `UIImage?`, `CADisplayLink?`). */
module Wrappers {

  datatype Option<+T> = None | Some(value: T)
}
