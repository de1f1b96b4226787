/** The relation fetch adapter behind the `AgentByAuthorID` loader: one bulk
    query per batch of author keys, reshaped into one optional agent per key. */
module Dataloaders {
  import opened Wrappers
  import opened Pg

  /** The agent a query row describes: its ID, Name and Email, nothing else. */
  function AgentOf(row: AgentRow): (a: Agent)
    ensures a.ID == row.ID && a.Name == row.Name && a.Email == row.Email
  {
    Agent(row.ID, row.Name, row.Email)
  }

  /** Go's map index `m[k]` on a map of pointers: a miss yields `nil`. */
  function Lookup(m: map<int64, Agent>, k: int64): (r: Option<Agent>)
    ensures r.None? <==> k !in m
    ensures r.Some? ==> r.value == m[k]
  {
    if k in m then Some(m[k]) else None
  }

  /** The position of the last row selected by author key `k`, if any. */
  function LastRowIndex(rows: seq<AgentRow>, k: int64): (r: Option<nat>)
    ensures r.Some? ==> r.value < |rows| && rows[r.value].AuthorID == k
    ensures r.Some? ==> forall j :: r.value < j < |rows| ==> rows[j].AuthorID != k
    ensures r.None? <==> forall j :: 0 <= j < |rows| ==> rows[j].AuthorID != k
  {
    if |rows| == 0 then None
    else if rows[|rows| - 1].AuthorID == k then Some(|rows| - 1)
    else LastRowIndex(rows[..|rows| - 1], k)
  }

  /** The answer for key `k`: the agent of the last row whose AuthorID is `k`,
      or absent when no row has that AuthorID. */
  function AgentFor(rows: seq<AgentRow>, k: int64): (r: Option<Agent>)
    ensures r.None? <==> forall j :: 0 <= j < |rows| ==> rows[j].AuthorID != k
    ensures r.Some? ==>
      exists j :: 0 <= j < |rows| && rows[j].AuthorID == k && r.value == AgentOf(rows[j])
                  && forall j' :: j < j' < |rows| ==> rows[j'].AuthorID != k
  {
    match LastRowIndex(rows, k)
    case None => None
    case Some(j) => Some(AgentOf(rows[j]))
  }

  /** A row appended after all others decides its own key and leaves every other key alone. */
  lemma AgentForSnoc(rows: seq<AgentRow>, row: AgentRow, k: int64)
    ensures AgentFor(rows + [row], k)
         == if row.AuthorID == k then Some(AgentOf(row)) else AgentFor(rows, k)
  {
  }

  /** Last row wins: a row selected by `k` with no later row selected by `k`
      is the one the answer for `k` is built from. */
  lemma AgentForLastRowWins(rows: seq<AgentRow>, i: nat, k: int64)
    requires i < |rows| && rows[i].AuthorID == k
    requires forall j :: i < j < |rows| ==> rows[j].AuthorID != k
    ensures AgentFor(rows, k) == Some(AgentOf(rows[i]))
  {
  }

  /** Deleting a row whose AuthorID is not `k` does not change the answer for `k`:
      rows selected by keys nobody asked for never reach the output. */
  lemma {:induction false} AgentForIgnoresOtherRows(rows: seq<AgentRow>, j: nat, k: int64)
    requires j < |rows| && rows[j].AuthorID != k
    ensures AgentFor(rows[..j] + rows[j + 1..], k) == AgentFor(rows, k)
  {
    var n := |rows| - 1;
    if j == n {
      assert rows[..j] + rows[j + 1..] == rows[..n];
      AgentForSnoc(rows[..n], rows[n], k);
      assert rows[..n] + [rows[n]] == rows;
    } else {
      var init := rows[..n];
      AgentForIgnoresOtherRows(init, j, k);
      assert rows[..j] + rows[j + 1..] == (init[..j] + init[j + 1..]) + [rows[n]];
      assert init + [rows[n]] == rows;
      AgentForSnoc(init[..j] + init[j + 1..], rows[n], k);
      AgentForSnoc(init, rows[n], k);
    }
  }

  /** The `Fetch` function of the agent-by-author loader. `query` is what the bulk
      query `ListAgentsByAuthorIDs(authorIDs)` returned. A failed query yields no
      values and that one error; otherwise there is one entry per key, in key
      order, holding the agent of the last row selected by that key, or absent.
      A nil slice and an empty slice are both `[]`. */
  method Fetch(authorIDs: seq<int64>, query: Result<seq<AgentRow>, Error>)
    returns (agents: seq<Option<Agent>>, errors: seq<Error>)
    ensures query.Failure? ==> agents == [] && errors == [query.error]
    ensures query.Success? ==> errors == [] && |agents| == |authorIDs|
    ensures query.Success? ==>
      forall i :: 0 <= i < |authorIDs| ==> agents[i] == AgentFor(query.value, authorIDs[i])
    ensures query.Success? ==>
      forall i, j :: 0 <= i < |authorIDs| && 0 <= j < |authorIDs| && authorIDs[i] == authorIDs[j]
        ==> agents[i] == agents[j]
  {
    if query.Failure? {
      return [], [query.error];
    }
    var res := query.value;
    var groupByAuthorID: map<int64, Agent> := map[];
    for n := 0 to |res|
      invariant forall k :: Lookup(groupByAuthorID, k) == AgentFor(res[..n], k)
    {
      var r := res[n];
      groupByAuthorID := groupByAuthorID[r.AuthorID := AgentOf(r)];
      assert res[..n + 1] == res[..n] + [r];
      forall k ensures Lookup(groupByAuthorID, k) == AgentFor(res[..n + 1], k) {
        AgentForSnoc(res[..n], r, k);
      }
    }
    assert res[..|res|] == res;
    var result := new Option<Agent>[|authorIDs|](_ => None);
    for i := 0 to |authorIDs|
      invariant forall j :: 0 <= j < i ==> result[j] == AgentFor(res, authorIDs[j])
    {
      result[i] := Lookup(groupByAuthorID, authorIDs[i]);
    }
    agents, errors := result[..], [];
  }
}
