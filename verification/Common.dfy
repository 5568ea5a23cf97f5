/** What the modules share. */
module Common {
  type Uid = nat
  type NameHash = nat

  datatype Option<+T> = None | Some(value: T)

  datatype CrustUser = Node | Client
}
