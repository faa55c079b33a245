/** The photo record shared by the selection screen and the compression service. */
module Photos {

  /** A content uri, compared by its text. */
  type Uri = string

  /**
   * A selected gallery photo. Equality is structural over both fields, as for a
   * Kotlin data class, so the same uri may occur twice in a set of photos: once
   * selected and once unselected.
   */
  datatype Photo = Photo(uri: Uri, isSelected: bool)

  /** The uris that occur in a set of photos. */
  function Uris(photos: set<Photo>): set<Uri>
  {
    set p | p in photos :: p.uri
  }
}
