/** Shared records and enumerations of the distribution portal. */
module Types {

  datatype Option<+T> = None | Some(value: T)

  /** Who a signed-in user is: an artist or an administrator. */
  datatype UserRole = Artist | Admin

  /** The signed-in user record handed around the application. */
  datatype User = User(id: string, name: string, email: string, stageName: string, role: UserRole)

  /** Review state of a submitted release. */
  datatype ReleaseStatus = Pending | Distributed | Rejected

  /** The fixed genre list offered by the genre selector; its first entry is the default. */
  const Genres: seq<string> :=
    ["Pop", "Hip-Hop", "Electronic", "Rock", "Jazz", "Classical", "R&B", "Country", "Lofi", "Ambient"]
}
