/**
  The optional value shared by the models: a channel drain that may never
  finish, the value `unique` remembers, a flag a `toggle` entry may leave
  unset.
 */
module Options {

  datatype Option<T> = None | Some(value: T)
}
