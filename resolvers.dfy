/** The one GraphQL field resolver with logic of its own: an author's website. */
module Resolvers {
  import opened Wrappers
  import opened Pg

  /** Resolves `Author.website`: a present string exactly when the column is
      valid, `nil` otherwise whatever text the column holds; never an error.
      The result pairs the Go return values `(*string, error)`. */
  function Website(obj: Author): (r: (Option<string>, Option<Error>))
    ensures r.1 == None
    ensures obj.Website.Valid ==> r.0 == Some(obj.Website.String)
    ensures !obj.Website.Valid ==> r.0 == None
  {
    if obj.Website.Valid then (Some(obj.Website.String), None) else (None, None)
  }

  /** Storing an optional website and resolving it again gives back the original. */
  lemma WebsiteRoundTrip(s: Option<string>, obj: Author)
    requires obj.Website == StringPtrToNullString(s)
    ensures Website(obj) == (s, None)
  {
  }

  /** The other direction: resolving a column and storing the answer rebuilds the
      column exactly when it was valid or held the empty string; an invalid column
      with text is normalised to `NullString("", false)`. */
  lemma NullStringRoundTrip(obj: Author)
    ensures StringPtrToNullString(Website(obj).0) == obj.Website
        <==> (obj.Website.Valid || obj.Website.String == "")
    ensures !obj.Website.Valid ==> StringPtrToNullString(Website(obj).0) == NullString("", false)
  {
  }
}
