/** The optional value used where the game looks up an island record that
    may be missing, and where an island's grid is either given or drawn. */
module Optional {
  datatype Option<T> = None | Some(value: T)
}
