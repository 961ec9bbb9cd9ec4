/** Optional values, for arguments the command line may leave out. */
module Options {
  datatype Option<+T> = None | Some(value: T)
}
