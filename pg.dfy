/** The data layer's record types and its one pure conversion helper. */
module Pg {
  import opened Wrappers

  /** `database/sql.NullString`: a nullable text column. Its Go zero value is `NullString("", false)`. */
  datatype NullString = NullString(String: string, Valid: bool)

  /** An agent as the GraphQL layer sees it. */
  datatype Agent = Agent(ID: int64, Name: string, Email: string)

  /** An author, reduced to the columns this model reads. */
  datatype Author = Author(ID: int64, Name: string, Website: NullString)

  /** One row of the bulk query "agents whose author is in this key list":
      the agent's columns plus the author key the row was selected by. */
  datatype AgentRow = AgentRow(AuthorID: int64, ID: int64, Name: string, Email: string)

  /** Converts an optional string (a Go `*string`) to a nullable column value.
      Total: every input, present or absent, has exactly one image. */
  function StringPtrToNullString(s: Option<string>): (r: NullString)
    ensures r.Valid <==> s.Some?
    ensures s.Some? ==> r.String == s.value
    ensures s.None? ==> r == NullString("", false)
  {
    if s.Some? then NullString(s.value, true) else NullString("", false)
  }
}
