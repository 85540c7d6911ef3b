/** Identifiers several protocols share. */
module Names {
  /** A node's virtual address. */
  datatype Vip = Vip(text: string)

  /** The id a request and its response carry. */
  datatype Id = Id(text: string)
}
