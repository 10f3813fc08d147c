/** The optional value used wherever the application reads something that may be
    missing (an unconnected wallet, a contract read that threw, a fetch that failed). */
module Opt {

  datatype Option<+T> = None | Some(value: T)

}
