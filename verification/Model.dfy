/** The types shared by the components. */
module Model {
  datatype Option<+T> = None | Some(value: T)

  /** What the trie, the trending index and the store exchange about a query. */
  datatype Candidate = Candidate(query: string, count: int, recentValue: real, recentTs: nat)

  /** A recency value and the second it was last brought up to date. */
  datatype State = State(value: real, ts: nat)
}
